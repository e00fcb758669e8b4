/**
 The database update transaction as code: each method works on the files one
 operation at a time and is proved to have exactly its protocol effect.
 Source: crates/centrald-server/src/config_lock.rs
 */
module DatabaseUpdates {
  import opened Wrappers
  import opened ConfigRevisions
  import opened CrashTraces
  import opened DatabaseProtocol

  class DatabaseDirectory {
    const site: Site
    var config: Option<Bytes>
    var environments: map<string, Bytes>
    var journal: Option<Journal>
    var environmentStage: Option<Bytes>
    var configStage: Option<Bytes>

    /** Every file state since the object was opened, in order. */
    ghost var trace: seq<Files>

    constructor (site: Site, files: Files)
      ensures this.site == site && Now() == files && trace == []
    {
      this.site := site;
      config, environments, journal := files.config, files.environments, files.journal;
      environmentStage, configStage := files.environmentStage, files.configStage;
      trace := [];
    }

    function Now(): Files
      reads this
    {
      Files(config, environments, journal, environmentStage, configStage)
    }

    ghost method Note()
      modifies this`trace
      ensures trace == old(trace) + [Now()]
    {
      trace := trace + [Now()];
    }

    /** The method had effect `e` from the state in which it was called. */
    twostate predicate Did(e: Effect, new r: Result<(), DatabaseError>)
      reads this
    {
      trace == old(trace) + e.trace && r == e.result && Now() == End(old(Now()), e)
    }

    method PublishEnvironmentStage(path: string) returns (r: Result<(), DatabaseError>)
      modifies this
      ensures Did(PublishEnvironment(old(Now()), path), r)
    {
      if environmentStage.None? {
        return Err(NoStage);
      }
      environments, environmentStage := environments[path := environmentStage.value], None;
      Note();
      r := Ok(());
    }

    method PublishConfigStage() returns (r: Result<(), DatabaseError>)
      modifies this
      ensures Did(PublishConfig(old(Now())), r)
    {
      if configStage.None? {
        return Err(NoStage);
      }
      config, configStage := configStage, None;
      Note();
      r := Ok(());
    }

    method DropJournal() returns (r: Result<(), DatabaseError>)
      modifies this
      ensures Did(RemoveJournal(old(Now())), r)
    {
      if journal.None? {
        return Err(NoJournal);
      }
      journal := None;
      Note();
      r := Ok(());
    }

    method DropOrphans()
      modifies this
      ensures trace == old(trace) + RemoveOrphans(old(Now()))
      ensures Now() == Last(old(Now()), RemoveOrphans(old(Now())))
    {
      if environmentStage.Some? {
        environmentStage := None;
        Note();
      }
      if configStage.Some? {
        configStage := None;
        Note();
      }
    }

    method RedoEnvironmentStage(path: string) returns (r: Result<(), DatabaseError>)
      modifies this
      ensures Did(RedoEnvironment(old(Now()), path), r)
    {
      if environmentStage.Some? {
        r := PublishEnvironmentStage(path);
      } else if path !in environments {
        r := Err(LostEnvironment);
      } else {
        r := Ok(());
      }
    }

    method RedoConfigStage(intended: string) returns (r: Result<(), DatabaseError>)
      modifies this
      ensures Did(RedoConfig(site, old(Now()), intended), r)
    {
      if configStage.Some? {
        r := PublishConfigStage();
      } else if config.None? {
        r := Err(NoConfig);
      } else if site.revision(config.value) != intended {
        r := Err(LostConfiguration);
      } else {
        r := Ok(());
      }
    }

    method RecoverLocked() returns (r: Result<(), DatabaseError>)
      modifies this
      ensures Did(RecoverEffect(site, old(Now())), r)
    {
      if journal.None? {
        DropOrphans();
        return Ok(());
      }
      var j := journal.value;
      if j.version != 1 || j.configPath != site.configPath {
        return Err(ForeignJournal);
      }
      if !ValidRevision(j.intended) {
        return Err(InvalidRevision);
      }
      r := RedoLocked(j);
    }

    method RedoLocked(j: Journal) returns (r: Result<(), DatabaseError>)
      modifies this
      ensures Did(RedoEffect(site, old(Now()), j), r)
    {
      ghost var f := Now();
      r := RedoEnvironmentStage(j.environmentPath);
      if r.Err? {
        return;
      }
      ghost var environment, f1 := RedoEnvironment(f, j.environmentPath), Now();
      r := RedoConfigStage(j.intended);
      ghost var config, f2 := RedoConfig(site, f1, j.intended), Now();
      LastOfBoth(f, environment.trace, config.trace);
      if r.Err? {
        return;
      }
      r := DropJournal();
      LastOfBoth(f, environment.trace + config.trace, RemoveJournal(f2).trace);
    }

    method BeginLocked(path: string, environment: Bytes, contents: Bytes) returns (r: Result<(), DatabaseError>)
      modifies this
      ensures Did(BeginEffect(site, old(Now()), path, environment, contents), r)
    {
      r := RecoverLocked();
      if r.Err? {
        return;
      }
      if journal.Some? || environmentStage.Some? || configStage.Some? {
        return Err(UnfinishedArtifact);
      }
      if path !in environments {
        return Err(NoEnvironment);
      }
      StageAndJournal(path, environment, contents);
    }

    /** Both stages first, the journal last. */
    method StageAndJournal(path: string, environment: Bytes, contents: Bytes)
      modifies this
      ensures trace == old(trace) + StagingTrace(site, old(Now()), path, environment, contents)
      ensures Now() == Begun(site, old(Now()), path, environment, contents)
    {
      environmentStage := Some(environment);
      Note();
      configStage := Some(contents);
      Note();
      journal := Some(Journal(1, site.configPath, path, site.revision(contents)));
      Note();
    }

    method Commit(path: string) returns (r: Result<(), DatabaseError>)
      modifies this
      ensures Did(CommitEffect(old(Now()), path), r)
    {
      ghost var f := Now();
      r := PublishEnvironmentStage(path);
      if r.Err? {
        return;
      }
      r := PublishConfigStage();
      if r.Err? {
        assert trace == old(trace) + CommitEffect(f, path).trace;
        return;
      }
      r := DropJournal();
      assert trace == old(trace) + CommitEffect(f, path).trace;
    }
  }
}
