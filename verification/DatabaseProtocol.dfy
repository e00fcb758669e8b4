/**
 The database update transaction: a redo journal over two files, the database
 environment and the server configuration that goes with it. Each operation is
 the list of file states it passes through; a crash may stop it anywhere.
 Source: crates/centrald-server/src/config_lock.rs
 */
module DatabaseProtocol {
  import opened Wrappers
  import opened ConfigRevisions
  import opened CrashTraces

  datatype Journal = Journal(version: int, configPath: string, environmentPath: string, intended: string)

  /** Environment files are kept by path, because recovery takes the path from the journal. */
  datatype Files = Files(
    config: Option<Bytes>,
    environments: map<string, Bytes>,
    journal: Option<Journal>,
    environmentStage: Option<Bytes>,
    configStage: Option<Bytes>)

  datatype DatabaseError =
    | ForeignJournal
    | InvalidRevision
    | LostEnvironment
    | NoConfig
    | LostConfiguration
    | UnfinishedArtifact
    | NoEnvironment
    | NoStage
    | NoJournal

  datatype Effect = Effect(trace: seq<Files>, result: Result<(), DatabaseError>)

  function End(f: Files, e: Effect): Files {
    Last(f, e.trace)
  }

  /** The second effect follows the first, which succeeded. */
  function Then(e: Effect, next: Effect): Effect {
    if e.result.Err? then e else Effect(e.trace + next.trace, next.result)
  }

  // ---- The operations ----------------------------------------------------

  function PublishEnvironment(f: Files, path: string): Effect {
    if f.environmentStage.None? then Effect([], Err(NoStage))
    else Effect([f.(environments := f.environments[path := f.environmentStage.value], environmentStage := None)],
      Ok(()))
  }

  function PublishConfig(f: Files): Effect {
    if f.configStage.None? then Effect([], Err(NoStage))
    else Effect([f.(config := f.configStage, configStage := None)], Ok(()))
  }

  function RemoveJournal(f: Files): Effect {
    if f.journal.None? then Effect([], Err(NoJournal)) else Effect([f.(journal := None)], Ok(()))
  }

  function RemoveOrphans(f: Files): seq<Files> {
    (if f.environmentStage.Some? then [f.(environmentStage := None)] else [])
    + (if f.configStage.Some? then [f.(environmentStage := None, configStage := None)] else [])
  }

  function RedoEnvironment(f: Files, path: string): Effect {
    if f.environmentStage.Some? then PublishEnvironment(f, path)
    else if path !in f.environments then Effect([], Err(LostEnvironment))
    else Effect([], Ok(()))
  }

  function RedoConfig(site: Site, f: Files, intended: string): Effect {
    if f.configStage.Some? then PublishConfig(f)
    else if f.config.None? then Effect([], Err(NoConfig))
    else if site.revision(f.config.value) != intended then Effect([], Err(LostConfiguration))
    else Effect([], Ok(()))
  }

  function RecoverEffect(site: Site, f: Files): Effect {
    match f.journal
    case None => Effect(RemoveOrphans(f), Ok(()))
    case Some(j) =>
      if j.version != 1 || j.configPath != site.configPath then Effect([], Err(ForeignJournal))
      else if !ValidRevision(j.intended) then Effect([], Err(InvalidRevision))
      else RedoEffect(site, f, j)
  }

  /** With a valid journal, what is staged is put in place and the journal removed. */
  function RedoEffect(site: Site, f: Files, j: Journal): Effect {
    var environment := RedoEnvironment(f, j.environmentPath);
    var f1 := End(f, environment);
    var config := RedoConfig(site, f1, j.intended);
    var f2 := End(f1, config);
    Then(Then(environment, config), RemoveJournal(f2))
  }

  function BeginEffect(site: Site, f: Files, path: string, environment: Bytes, config: Bytes): Effect {
    var recovery := RecoverEffect(site, f);
    var r := End(f, recovery);
    if recovery.result.Err? then recovery
    else if r.journal.Some? || r.environmentStage.Some? || r.configStage.Some?
    then Effect(recovery.trace, Err(UnfinishedArtifact))
    else if path !in r.environments then Effect(recovery.trace, Err(NoEnvironment))
    else Effect(recovery.trace + StagingTrace(site, r, path, environment, config), Ok(()))
  }

  /** Both files are staged, then the journal names them. */
  function StagingTrace(site: Site, f: Files, path: string, environment: Bytes, config: Bytes): seq<Files> {
    var staged := f.(environmentStage := Some(environment));
    [staged, staged.(configStage := Some(config)), Begun(site, f, path, environment, config)]
  }

  function CommitEffect(f: Files, path: string): Effect {
    var environment := PublishEnvironment(f, path);
    var f1 := End(f, environment);
    var config := PublishConfig(f1);
    var f2 := End(f1, config);
    Then(Then(environment, config), RemoveJournal(f2))
  }

  // ---- Reachable states --------------------------------------------------

  /** One version of the database settings: every environment file, and the configuration. */
  datatype Version = Version(environments: map<string, Bytes>, config: Bytes)

  /** The version that replaces the environment at `path` and the configuration. */
  function Updated(v: Version, path: string, environment: Bytes, config: Bytes): Version {
    Version(v.environments[path := environment], config)
  }

  /** `new'` differs from `old'` in the environment at `path` and the configuration, if at all. */
  predicate Updates(old': Version, path: string, new': Version) {
    new' == old'
    || (path in old'.environments && path in new'.environments
        && new' == Updated(old', path, new'.environments[path], new'.config))
  }

  predicate InPlace(f: Files, v: Version) {
    f.config == Some(v.config) && f.environments == v.environments
  }

  /**
   Without a journal both files are old or both are new. With one, each new file
   is staged or already in place, the environment going first.
   */
  predicate Sound(site: Site, f: Files, path: string, old': Version, new': Version) {
    match f.journal
    case None => InPlace(f, old') || InPlace(f, new')
    case Some(j) =>
      && j == Journal(1, site.configPath, path, site.revision(new'.config))
      && path in old'.environments && path in new'.environments
      && ((f.environmentStage == Some(new'.environments[path]) && f.environments == old'.environments)
          || (f.environmentStage.None? && f.environments == new'.environments))
      && ((f.configStage == Some(new'.config) && f.config == Some(old'.config))
          || (f.configStage.None? && f.config == Some(new'.config)))
      && (f.configStage.None? ==> f.environmentStage.None?)
  }

  /** What recovery will make of the files: the journal is the decision. */
  function Decision(f: Files, old': Version, new': Version): Version {
    if f.journal.Some? || InPlace(f, new') then new' else old'
  }

  /** Only the environments and the configuration are left, in one version. */
  predicate Settled(f: Files, v: Version) {
    InPlace(f, v) && f.journal.None? && f.environmentStage.None? && f.configStage.None?
  }

  /** Recovery succeeds and settles the decided version, and on the way the files stay sound and decided. */
  ghost predicate Recovers(site: Site, f: Files, path: string, old': Version, new': Version) {
    var e := RecoverEffect(site, f);
    var d := Decision(f, old', new');
    && e.result.Ok?
    && Settled(End(f, e), d)
    && (forall k | 0 <= k < |e.trace| ::
          Sound(site, e.trace[k], path, old', new') && Decision(e.trace[k], old', new') == d)
  }

  /**
   Recovery never fails in a reachable state and settles both files in the
   decided version; every file state on the way is reachable and has the same
   decision, so a stopped recovery is completed by the next one.
   */
  lemma RecoverySettlesBothFiles(site: Site, f: Files, path: string, old': Version, new': Version)
    requires Lawful(site) && Updates(old', path, new') && Sound(site, f, path, old', new')
    ensures Recovers(site, f, path, old', new')
  {
    if f.journal.None? {
      OrphansAreRemoved(site, f, path, old', new');
    } else if f.environmentStage.Some? {
      RedoesBoth(site, f, path, old', new');
    } else {
      RedoesConfig(site, f, path, old', new');
    }
  }

  /** Without a journal recovery removes what was staged. */
  lemma OrphansAreRemoved(site: Site, f: Files, path: string, old': Version, new': Version)
    requires Sound(site, f, path, old', new') && f.journal.None?
    ensures Recovers(site, f, path, old', new')
  {
    var e := RecoverEffect(site, f);
    assert e.trace == RemoveOrphans(f);
  }

  /** With a journal and both stages it puts both in place. */
  lemma RedoesBoth(site: Site, f: Files, path: string, old': Version, new': Version)
    requires Lawful(site) && Updates(old', path, new') && Sound(site, f, path, old', new')
    requires f.journal.Some? && f.environmentStage.Some?
    ensures Recovers(site, f, path, old', new')
  {
    assert ValidRevision(site.revision(new'.config));
    assert new'.environments[path := new'.environments[path]] == new'.environments;
    var f1 := f.(environments := new'.environments, environmentStage := None);
    assert f.environments[path := f.environmentStage.value] == new'.environments;
    var f2 := f1.(config := Some(new'.config), configStage := None);
    assert RecoverEffect(site, f).trace == [f1] + [f2] + [f2.(journal := None)];
  }

  /** With the environment in place it puts the configuration in place, if that is still staged. */
  lemma RedoesConfig(site: Site, f: Files, path: string, old': Version, new': Version)
    requires Lawful(site) && Sound(site, f, path, old', new')
    requires f.journal.Some? && f.environmentStage.None?
    ensures Recovers(site, f, path, old', new')
  {
    assert ValidRevision(site.revision(new'.config));
    var f2 := f.(config := Some(new'.config), configStage := None);
    assert RecoverEffect(site, f).trace == (if f.configStage.Some? then [f2] else []) + [f2.(journal := None)];
  }

  /** The journal is the commit point of `begin`: before it everything stays old, with it everything is new. */
  lemma JournalIsTheCommitPoint(site: Site, f: Files, path: string, old': Version, environment: Bytes, config: Bytes)
    requires Lawful(site) && Settled(f, old') && path in old'.environments
    ensures var new' := Updated(old', path, environment, config);
            var e := BeginEffect(site, f, path, environment, config);
            && e.result.Ok? && |e.trace| == 3
            && (forall k | 0 <= k < 3 :: Sound(site, e.trace[k], path, old', new'))
            && (forall k | 0 <= k < 2 :: Decision(e.trace[k], old', new') == old')
            && Decision(e.trace[2], old', new') == new'
            && e.trace[2] == Begun(site, f, path, environment, config)
  {
  }

  function Begun(site: Site, f: Files, path: string, environment: Bytes, config: Bytes): Files {
    f.(environmentStage := Some(environment), configStage := Some(config),
       journal := Some(Journal(1, site.configPath, path, site.revision(config))))
  }

  /** Committing keeps the decision at every file operation and ends settled in the new version. */
  lemma CommitPublishesBothFiles(site: Site, f: Files, path: string, old': Version, environment: Bytes, config: Bytes)
    requires Settled(f, old') && path in old'.environments
    ensures var new' := Updated(old', path, environment, config);
            var b := Begun(site, f, path, environment, config);
            var e := CommitEffect(b, path);
            && e.result.Ok? && Settled(End(b, e), new')
            && (forall k | 0 <= k < |e.trace| ::
                  Sound(site, e.trace[k], path, old', new') && Decision(e.trace[k], old', new') == new')
  {
  }

  // ---- Whole runs --------------------------------------------------------

  datatype Operation = Recover | Begin(path: string, environment: Bytes, config: Bytes) | Commit

  /** The files, whether the caller holds a begun transaction, and the path and the two versions of the latest one. */
  datatype State = State(files: Files, begun: bool, path: string, previous: Version, intended: Version)

  predicate Allowed(s: State, op: Operation) {
    op.Commit? <==> s.begun
  }

  function EffectOf(site: Site, s: State, op: Operation): Effect {
    match op
    case Recover => RecoverEffect(site, s.files)
    case Begin(path, environment, config) => BeginEffect(site, s.files, path, environment, config)
    case Commit => CommitEffect(s.files, s.path)
  }

  /** The version that recovery would settle. */
  function DecisionOf(s: State): Version {
    Decision(s.files, s.previous, s.intended)
  }

  /** A call fails only when a transaction names an environment file that does not exist. */
  predicate Succeeds(s: State, op: Operation) {
    op.Begin? ==> op.path in DecisionOf(s).environments
  }

  predicate Finishes(site: Site, s: State, call: Call<Operation>) {
    Completes(EffectOf(site, s, call.op).trace, call.crash)
  }

  /** A transaction names its path and its two versions once its recovery part is over. */
  function After(site: Site, s: State, call: Call<Operation>): State {
    var files := Stopped(s.files, EffectOf(site, s, call.op).trace, call.crash);
    var complete := Finishes(site, s, call);
    match call.op
    case Begin(path, environment, config) =>
      if Succeeds(s, call.op) && (complete || call.crash.value > |RecoverEffect(site, s.files).trace|)
      then State(files, complete, path, DecisionOf(s), Updated(DecisionOf(s), path, environment, config))
      else s.(files := files, begun := false)
    case _ => s.(files := files, begun := false)
  }

  function RunAfter(site: Site, s: State, calls: seq<Call<Operation>>): State {
    if calls == [] then s
    else After(site, RunAfter(site, s, calls[..|calls| - 1]), calls[|calls| - 1])
  }

  predicate AllAllowed(site: Site, s: State, calls: seq<Call<Operation>>) {
    calls == [] ||
    (AllAllowed(site, s, calls[..|calls| - 1])
     && Allowed(RunAfter(site, s, calls[..|calls| - 1]), calls[|calls| - 1].op))
  }

  /** The files are those of a transaction that has begun over `base`. */
  predicate BegunOver(site: Site, s: State, base: Files) {
    && Settled(base, s.previous) && s.path in s.previous.environments && s.path in s.intended.environments
    && s.files == Begun(site, base, s.path, s.intended.environments[s.path], s.intended.config)
  }

  ghost predicate Invariant(site: Site, s: State) {
    && Updates(s.previous, s.path, s.intended)
    && Sound(site, s.files, s.path, s.previous, s.intended)
    && (s.begun ==> exists base :: BegunOver(site, s, base))
  }

  lemma CallKeepsInvariant(site: Site, s: State, call: Call<Operation>)
    requires Lawful(site) && Invariant(site, s) && Allowed(s, call.op)
    ensures EffectOf(site, s, call.op).result.Ok? <==> Succeeds(s, call.op)
    ensures Invariant(site, After(site, s, call))
    ensures !call.op.Begin? ==> DecisionOf(After(site, s, call)) == DecisionOf(s)
  {
    RecoverySettlesBothFiles(site, s.files, s.path, s.previous, s.intended);
    match call.op
    case Recover =>
    case Commit =>
      var base :| BegunOver(site, s, base);
      var environment := s.intended.environments[s.path];
      assert s.intended == Updated(s.previous, s.path, environment, s.intended.config);
      CommitPublishesBothFiles(site, base, s.path, s.previous, environment, s.intended.config);
    case Begin(path, environment, config) => BeginKeepsInvariant(site, s, path, environment, config, call);
  }

  lemma BeginKeepsInvariant(site: Site, s: State, path: string, environment: Bytes, config: Bytes,
      call: Call<Operation>)
    requires Lawful(site) && Invariant(site, s) && !s.begun && call.op == Begin(path, environment, config)
    ensures EffectOf(site, s, call.op).result.Ok? <==> Succeeds(s, call.op)
    ensures Invariant(site, After(site, s, call))
  {
    RecoverySettlesBothFiles(site, s.files, s.path, s.previous, s.intended);
    if Succeeds(s, call.op) {
      BegunKeepsInvariant(site, s, path, environment, config, call);
    }
  }

  /** The file states of a transaction that begins: those of recovery, then the two stages and the journal. */
  lemma BeginTrace(site: Site, f: Files, d: Version, path: string, environment: Bytes, config: Bytes)
    requires Lawful(site) && RecoverEffect(site, f).result.Ok? && Settled(End(f, RecoverEffect(site, f)), d)
    requires path in d.environments
    ensures var recovery := RecoverEffect(site, f); var r := End(f, recovery);
            var e := BeginEffect(site, f, path, environment, config);
            && e.result.Ok? && BeginEffect(site, r, path, environment, config).trace == e.trace[|recovery.trace|..]
            && |e.trace| == |recovery.trace| + 3 && e.trace[..|recovery.trace|] == recovery.trace
  {
    var r := End(f, RecoverEffect(site, f));
    assert RecoverEffect(site, r).trace == [];
  }

  lemma BegunKeepsInvariant(site: Site, s: State, path: string, environment: Bytes, config: Bytes,
      call: Call<Operation>)
    requires Lawful(site) && Invariant(site, s) && !s.begun && call.op == Begin(path, environment, config)
    requires Succeeds(s, call.op) && Recovers(site, s.files, s.path, s.previous, s.intended)
    ensures EffectOf(site, s, call.op).result.Ok? && Invariant(site, After(site, s, call))
  {
    var recovery, d := RecoverEffect(site, s.files), DecisionOf(s);
    var r := End(s.files, recovery);
    JournalIsTheCommitPoint(site, r, path, d, environment, config);
    BeginTrace(site, s.files, d, path, environment, config);
    assert Updated(d, path, environment, config).environments[path] == environment;
    assert Finishes(site, s, call) ==> BegunOver(site, After(site, s, call), r);
  }

  /**
   Two-file atomicity over whole runs of transactions, each with its own
   environment path, with crashes anywhere in begin, commit and recovery: a call
   fails only when its environment file does not exist, and a completed recovery
   leaves both files old or both files new and every other environment alone.
   */
  lemma {:induction false} RunIsAtomicOverTwoFiles(site: Site, s: State, calls: seq<Call<Operation>>)
    requires Lawful(site) && Invariant(site, s) && AllAllowed(site, s, calls)
    ensures var e := RunAfter(site, s, calls);
            var recovery := RecoverEffect(site, e.files);
            && Invariant(site, e)
            && recovery.result.Ok?
            && (Settled(End(e.files, recovery), e.previous) || Settled(End(e.files, recovery), e.intended))
    ensures calls != [] ==>
              var before := RunAfter(site, s, calls[..|calls| - 1]); var op := calls[|calls| - 1].op;
              EffectOf(site, before, op).result.Ok? <==> Succeeds(before, op)
  {
    if calls != [] {
      var init := calls[..|calls| - 1];
      RunIsAtomicOverTwoFiles(site, s, init);
      CallKeepsInvariant(site, RunAfter(site, s, init), calls[|calls| - 1]);
    }
    var e := RunAfter(site, s, calls);
    RecoverySettlesBothFiles(site, e.files, e.path, e.previous, e.intended);
  }

  /** Until the next transaction begins, what was decided stays decided through every crash and recovery. */
  lemma {:induction false} DecisionIsFinal(site: Site, s: State, calls: seq<Call<Operation>>)
    requires Lawful(site) && Invariant(site, s) && AllAllowed(site, s, calls)
    requires forall i | 0 <= i < |calls| :: !calls[i].op.Begin?
    ensures var e := RunAfter(site, s, calls);
            && e.previous == s.previous && e.intended == s.intended && DecisionOf(e) == DecisionOf(s)
            && Settled(End(e.files, RecoverEffect(site, e.files)), DecisionOf(s))
  {
    if calls != [] {
      var init := calls[..|calls| - 1];
      DecisionIsFinal(site, s, init);
      RunIsAtomicOverTwoFiles(site, s, init);
      CallKeepsInvariant(site, RunAfter(site, s, init), calls[|calls| - 1]);
    }
    RunIsAtomicOverTwoFiles(site, s, calls);
    var e := RunAfter(site, s, calls);
    RecoverySettlesBothFiles(site, e.files, e.path, e.previous, e.intended);
  }
}
