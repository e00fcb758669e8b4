/**
 The settings update transaction as code: each method works on the files one
 operation at a time and is proved to have exactly its protocol effect.
 Source: crates/centrald-server/src/config_lock.rs
 */
module SettingsUpdates {
  import opened Wrappers
  import opened ConfigRevisions
  import opened CrashTraces
  import opened SettingsProtocol

  class SettingsDirectory {
    const site: Site
    var config: Option<Bytes>
    var journal: Option<Journal>
    var original: Option<Bytes>
    var published: Option<string>

    /** Every file state since the object was opened, in order. */
    ghost var trace: seq<Files>

    constructor (site: Site, files: Files)
      ensures this.site == site && Now() == files && trace == []
    {
      this.site := site;
      config, journal, original, published := files.config, files.journal, files.original, files.published;
      trace := [];
    }

    function Now(): Files
      reads this
    {
      Files(config, journal, original, published)
    }

    ghost method Note()
      modifies this`trace
      ensures trace == old(trace) + [Now()]
    {
      trace := trace + [Now()];
    }

    /** The method had effect `e` from the state in which it was called. */
    twostate predicate Did(e: Effect, new r: Result<(), SettingsError>)
      reads this
    {
      trace == old(trace) + e.trace && r == e.result && Now() == End(old(Now()), e)
    }

    method CleanupTransactionFiles()
      modifies this
      ensures trace == old(trace) + CleanupTrace(old(Now()))
      ensures Now() == Last(old(Now()), CleanupTrace(old(Now())))
    {
      ghost var f := Now();
      if published.Some? {
        published := None;
        Note();
      }
      if journal.Some? {
        journal := None;
        Note();
      }
      if original.Some? {
        original := None;
        Note();
      }
      assert trace == old(trace) + CleanupTrace(f);
    }

    method RestoreOriginal() returns (r: Result<(), SettingsError>)
      modifies this
      ensures Did(RestoreEffect(old(Now())), r)
    {
      ghost var f := Now();
      if original.None? {
        return Err(NoOriginal);
      }
      if config.None? {
        return Err(NoConfig);
      }
      config := original;
      Note();
      ghost var restored := Now();
      CleanupTransactionFiles();
      assert trace == old(trace) + ([restored] + CleanupTrace(restored));
      r := Ok(());
    }

    method RecoverLocked() returns (r: Result<(), SettingsError>)
      modifies this
      ensures Did(RecoverEffect(site, old(Now())), r)
    {
      if journal.None? {
        r := FinishCleanup();
        return;
      }
      var j := journal.value;
      if j.version != 1 || j.configPath != site.configPath {
        return Err(ForeignJournal);
      }
      if !ValidRevision(j.intended) {
        return Err(InvalidRevision);
      }
      if original.None? {
        return Err(NoOriginal);
      }
      var keep := false;
      if published.Some? {
        if config.None? {
          return Err(NoConfig);
        }
        keep := published.value == j.intended && site.revision(config.value) == j.intended;
      }
      if keep {
        CleanupTransactionFiles();
        r := Ok(());
      } else {
        r := RestoreOriginal();
      }
    }

    /** Without a journal there is nothing to undo, only recovery files to retire. */
    method FinishCleanup() returns (r: Result<(), SettingsError>)
      requires journal.None?
      modifies this
      ensures Did(RecoverWithoutJournal(site, old(Now())), r)
    {
      ghost var f := Now();
      if published.Some? {
        if !ValidRevision(published.value) {
          return Err(InvalidRevision);
        }
        if config.None? {
          return Err(NoConfig);
        }
        if site.revision(config.value) != published.value {
          return Err(CleanupMarkerMismatch);
        }
        if original.Some? {
          original := None;
          Note();
        }
        published := None;
        Note();
        assert trace == old(trace) + (RemoveOriginal(f) + [f.(original := None, published := None)]);
        return Ok(());
      }
      if original.Some? {
        original := None;
        Note();
      }
      r := Ok(());
    }

    method BeginLocked(contents: Bytes, intended: string) returns (r: Result<(), SettingsError>)
      modifies this
      ensures Did(BeginEffect(site, old(Now()), contents, intended), r)
    {
      ghost var f := Now();
      r := RecoverLocked();
      if r.Err? {
        return;
      }
      if !ValidRevision(intended) {
        return Err(InvalidRevision);
      }
      if journal.Some? || original.Some? || published.Some? {
        return Err(UnfinishedArtifact);
      }
      ghost var recovered := trace;
      original := Some(contents);
      Note();
      ghost var staged := Now();
      journal := Some(Journal(1, site.configPath, intended));
      Note();
      assert trace == recovered + [staged, Now()];
    }

    method ReplaceConfig(contents: Bytes) returns (r: Result<(), SettingsError>)
      modifies this
      ensures Did(ReplaceEffect(old(Now()), contents), r)
    {
      if config.None? {
        return Err(NoConfig);
      }
      config := Some(contents);
      Note();
      r := Ok(());
    }

    method MarkPublished() returns (r: Result<(), SettingsError>)
      modifies this
      ensures Did(MarkPublishedEffect(site, old(Now())), r)
    {
      if config.None? {
        return Err(NoConfig);
      }
      if journal.None? {
        return Err(NoJournal);
      }
      var revision := site.revision(config.value);
      if revision != journal.value.intended {
        return Err(RevisionMismatch);
      }
      if published.Some? {
        return Err(MarkerExists);
      }
      published := Some(revision);
      Note();
      r := Ok(());
    }

    method Complete() returns (r: Result<(), SettingsError>)
      modifies this
      ensures Did(CompleteEffect(old(Now())), r)
    {
      ghost var f := Now();
      if journal.Some? {
        journal := None;
        Note();
      }
      if original.Some? {
        original := None;
        Note();
      }
      if published.Some? {
        published := None;
        Note();
      }
      assert trace == old(trace) + CompleteEffect(f).trace;
      r := Ok(());
    }

    method Rollback() returns (r: Result<(), SettingsError>)
      modifies this
      ensures Did(RollbackEffect(old(Now())), r)
    {
      if journal.None? {
        return Err(NoJournal);
      }
      r := RestoreOriginal();
    }
  }
}
