/**
 When a channel may move: the decision a publisher takes about the four
 channel files it finds on the branch.
 Source: scripts/release.js
 */
module ChannelAdvance {
  import opened Wrappers
  import opened SemVer
  import opened SemVerText

  const MAX_MANIFEST_BYTES := 2 * 1024 * 1024

  datatype FileName = SharedManifest | SharedSignature | UpdaterManifest | UpdaterSignature

  datatype Path = ChannelFile(channel: string, name: FileName) | OtherFile(path: string)

  type Tree = map<Path, Bytes>

  /** The four files of a channel. */
  datatype Files = Files(shared: Bytes, sharedSignature: Bytes, updater: Bytes, updaterSignature: Bytes)

  /** The fields of a manifest that the decision reads. */
  datatype Manifest = Manifest(version: string, channel: string, repository: string)

  /** The configured repository and the JSON reader. */
  datatype Site = Site(repository: string, manifest: Bytes -> Option<Manifest>)

  /** One publisher's channel, its four files, the version it releases and its rollback switch. */
  datatype Publisher = Publisher(channel: string, files: Files, version: string, allowRollback: bool)

  datatype Decision = Advance | Unchanged

  datatype Refusal = Incomplete | Unreadable | Disagreeing | Foreign | InvalidVersion | Backward | SameVersionOtherBytes

  function FileAt(tree: Tree, channel: string, name: FileName): Option<Bytes> {
    var path := ChannelFile(channel, name);
    if path in tree then Some(tree[path]) else None
  }

  predicate Absent(tree: Tree, channel: string) {
    && FileAt(tree, channel, SharedManifest).None? && FileAt(tree, channel, SharedSignature).None?
    && FileAt(tree, channel, UpdaterManifest).None? && FileAt(tree, channel, UpdaterSignature).None?
  }

  /** The channel's files, when all four are there. */
  function FilesAt(tree: Tree, channel: string): Option<Files> {
    var shared, sharedSignature := FileAt(tree, channel, SharedManifest), FileAt(tree, channel, SharedSignature);
    var updater, updaterSignature := FileAt(tree, channel, UpdaterManifest), FileAt(tree, channel, UpdaterSignature);
    if shared.None? || sharedSignature.None? || updater.None? || updaterSignature.None? then None
    else Some(Files(shared.value, sharedSignature.value, updater.value, updaterSignature.value))
  }

  /** A new tree over the base tree: the four entries are replaced, the rest is kept. */
  function WithFiles(tree: Tree, channel: string, files: Files): Tree {
    tree[ChannelFile(channel, SharedManifest) := files.shared]
        [ChannelFile(channel, SharedSignature) := files.sharedSignature]
        [ChannelFile(channel, UpdaterManifest) := files.updater]
        [ChannelFile(channel, UpdaterSignature) := files.updaterSignature]
  }

  function ParseManifest(site: Site, content: Bytes): Option<Manifest> {
    if |content| == 0 || |content| > MAX_MANIFEST_BYTES then None else site.manifest(content)
  }

  /** The decision on files that are all present. */
  function DecideComplete(site: Site, p: Publisher, current: Files): Result<Decision, Refusal> {
    var currentShared, currentUpdater := ParseManifest(site, current.shared), ParseManifest(site, current.updater);
    var nextShared, nextUpdater := ParseManifest(site, p.files.shared), ParseManifest(site, p.files.updater);
    if currentShared.None? || currentUpdater.None? || nextShared.None? || nextUpdater.None? then Err(Unreadable)
    else if currentShared.value.version != currentUpdater.value.version then Err(Disagreeing)
    else if currentShared.value.channel != p.channel || currentShared.value.repository != site.repository
      then Err(Foreign)
    else if nextShared.value.version != nextUpdater.value.version || nextShared.value.version != p.version
      then Err(Disagreeing)
    else if nextShared.value.channel != p.channel || nextShared.value.repository != site.repository then Err(Foreign)
    else DecidePrecedence(p, current, Parse(nextShared.value.version), Parse(currentShared.value.version))
  }

  function DecidePrecedence(p: Publisher, current: Files, next: Option<Version>, now: Option<Version>)
    : Result<Decision, Refusal>
  {
    if next.None? || now.None? then Err(InvalidVersion)
    else
      var precedence := Compare(next.value, now.value);
      if precedence < 0 && !p.allowRollback then Err(Backward)
      else if precedence == 0 then (if current == p.files then Ok(Unchanged) else Err(SameVersionOtherBytes))
      else Ok(Advance)
  }

  function Decide(site: Site, p: Publisher, tree: Tree): Result<Decision, Refusal> {
    if Absent(tree, p.channel) then Ok(Advance)
    else if FilesAt(tree, p.channel).None? then Err(Incomplete)
    else DecideComplete(site, p, FilesAt(tree, p.channel).value)
  }

  // ---- What a decision means ---------------------------------------------

  /** The version a set of files announces. */
  function AnnouncedVersion(site: Site, files: Files): Option<Version> {
    match ParseManifest(site, files.shared)
    case None => None
    case Some(manifest) => Parse(manifest.version)
  }

  /** `later` announces a strictly higher precedence than `earlier`. */
  predicate Higher(site: Site, earlier: Files, later: Files) {
    && AnnouncedVersion(site, earlier).Some?
    && AnnouncedVersion(site, later).Some?
    && Compare(AnnouncedVersion(site, earlier).value, AnnouncedVersion(site, later).value) < 0
  }

  /** Two manifests that agree on the version and belong to this channel and repository. */
  predicate Consistent(site: Site, channel: string, files: Files) {
    && ParseManifest(site, files.shared).Some?
    && ParseManifest(site, files.updater).Some?
    && ParseManifest(site, files.shared).value.version == ParseManifest(site, files.updater).value.version
    && ParseManifest(site, files.shared).value.channel == channel
    && ParseManifest(site, files.shared).value.repository == site.repository
    && AnnouncedVersion(site, files).Some?
  }

  /** The publisher's own files are consistent and announce the version it releases. */
  predicate Releases(site: Site, p: Publisher) {
    && Consistent(site, p.channel, p.files)
    && ParseManifest(site, p.files.shared).value.version == p.version
  }

  lemma HigherIsTransitive(site: Site, a: Files, b: Files, c: Files)
    requires Higher(site, a, b) && Higher(site, b, c)
    ensures Higher(site, a, c)
  {
    AnnouncedIsValid(site, a);
    AnnouncedIsValid(site, b);
    AnnouncedIsValid(site, c);
    CompareIsTransitive(AnnouncedVersion(site, a).value, AnnouncedVersion(site, b).value,
      AnnouncedVersion(site, c).value);
  }

  lemma AnnouncedIsValid(site: Site, files: Files)
    requires AnnouncedVersion(site, files).Some?
    ensures Valid(AnnouncedVersion(site, files).value)
  {
    ParsedIsValid(ParseManifest(site, files.shared).value.version);
  }

  /** At most one of: lower, the same version, higher. */
  lemma HigherIsStrict(site: Site, a: Files, b: Files)
    requires Higher(site, a, b)
    ensures !Higher(site, b, a) && AnnouncedVersion(site, a) != AnnouncedVersion(site, b)
  {
    AnnouncedIsValid(site, a);
    AnnouncedIsValid(site, b);
    CompareIsAntisymmetric(AnnouncedVersion(site, a).value, AnnouncedVersion(site, b).value);
  }

  /**
   Exactly when a publisher moves a channel: on a channel without any file
   (where its own files are not examined), or from consistent files to
   consistent files of a higher version, or of a lower one with the rollback
   switch set.
   */
  lemma AdvanceIff(site: Site, p: Publisher, tree: Tree)
    ensures Decide(site, p, tree) == Ok(Advance) <==>
      || Absent(tree, p.channel)
      || (&& FilesAt(tree, p.channel).Some?
          && Consistent(site, p.channel, FilesAt(tree, p.channel).value)
          && Releases(site, p)
          && (|| Higher(site, FilesAt(tree, p.channel).value, p.files)
              || (p.allowRollback && Higher(site, p.files, FilesAt(tree, p.channel).value))))
  {
    if FilesAt(tree, p.channel).Some? { CompleteAdvanceIff(site, p, FilesAt(tree, p.channel).value); }
  }

  /** Only consistent files on both sides get as far as a comparison of versions. */
  lemma ComparedWhenConsistent(site: Site, p: Publisher, current: Files)
    ensures Consistent(site, p.channel, current) && Releases(site, p) ==>
      DecideComplete(site, p, current) ==
        DecidePrecedence(p, current, AnnouncedVersion(site, p.files), AnnouncedVersion(site, current))
    ensures !(Consistent(site, p.channel, current) && Releases(site, p)) ==> DecideComplete(site, p, current).Err?
  {
  }

  lemma PrecedenceDecides(p: Publisher, current: Files, next: Version, now: Version)
    requires Valid(next) && Valid(now)
    ensures DecidePrecedence(p, current, Some(next), Some(now)) == Ok(Advance) <==>
      Compare(now, next) < 0 || (p.allowRollback && Compare(next, now) < 0)
    ensures DecidePrecedence(p, current, Some(next), Some(now)) == Ok(Unchanged) <==> next == now && current == p.files
  {
    CompareIsAntisymmetric(next, now);
  }

  lemma CompleteAdvanceIff(site: Site, p: Publisher, current: Files)
    ensures DecideComplete(site, p, current) == Ok(Advance) <==>
      && Consistent(site, p.channel, current)
      && Releases(site, p)
      && (Higher(site, current, p.files) || (p.allowRollback && Higher(site, p.files, current)))
    ensures DecideComplete(site, p, current) == Ok(Unchanged) <==> Releases(site, p) && current == p.files
  {
    ComparedWhenConsistent(site, p, current);
    if Consistent(site, p.channel, current) && Releases(site, p) {
      AnnouncedIsValid(site, current);
      AnnouncedIsValid(site, p.files);
      PrecedenceDecides(p, current, AnnouncedVersion(site, p.files).value, AnnouncedVersion(site, current).value);
    }
  }

  /** "Unchanged" is answered exactly when the branch already holds these consistent files, byte for byte. */
  lemma UnchangedIff(site: Site, p: Publisher, tree: Tree)
    ensures Decide(site, p, tree) == Ok(Unchanged) <==> FilesAt(tree, p.channel) == Some(p.files) && Releases(site, p)
  {
    if FilesAt(tree, p.channel).Some? { CompleteAdvanceIff(site, p, FilesAt(tree, p.channel).value); }
  }

  /** One commit replaces the channel's four files together and touches no other path. */
  lemma WithFilesIsLocal(tree: Tree, channel: string, files: Files)
    ensures FilesAt(WithFiles(tree, channel, files), channel) == Some(files)
    ensures forall other: string, name: FileName | other != channel ::
      FileAt(WithFiles(tree, channel, files), other, name) == FileAt(tree, other, name)
    ensures forall path: string ::
      OtherFile(path) in WithFiles(tree, channel, files) <==> OtherFile(path) in tree
    ensures forall path: string | OtherFile(path) in tree ::
      WithFiles(tree, channel, files)[OtherFile(path)] == tree[OtherFile(path)]
  {
  }
}
