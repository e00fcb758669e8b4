/**
 What both configuration transactions share: bytes, the digest of a
 configuration as hexadecimal text, and the place the configuration lives.
 Source: crates/centrald-server/src/config_lock.rs
 */
module ConfigRevisions {
  import opened Wrappers

  /** Where the configuration lives, and the digest of its bytes as hexadecimal text. */
  datatype Site = Site(configPath: string, revision: Bytes -> string)

  predicate IsHexDigit(c: char) {
    '0' <= c <= '9' || 'a' <= c <= 'f' || 'A' <= c <= 'F'
  }

  predicate ValidRevision(r: string) {
    |r| == 64 && forall i | 0 <= i < |r| :: IsHexDigit(r[i])
  }

  ghost predicate Lawful(site: Site) {
    forall b: Bytes :: ValidRevision(site.revision(b))
  }
}
