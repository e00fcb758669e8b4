/**
 The settings update transaction: an undo journal with a publication marker
 next to the server configuration. Each operation is the list of file states
 it passes through; a crash may stop it after any of them, recovery included.
 Sources: crates/centrald-server/src/config_lock.rs, crates/centrald-server/src/services.rs
 */
module SettingsProtocol {
  import opened Wrappers
  import opened ConfigRevisions
  import opened CrashTraces

  datatype Journal = Journal(version: int, configPath: string, intended: string)

  datatype Files = Files(
    config: Option<Bytes>,
    journal: Option<Journal>,
    original: Option<Bytes>,
    published: Option<string>)

  datatype SettingsError =
    | NoConfig
    | InvalidRevision
    | CleanupMarkerMismatch
    | ForeignJournal
    | NoOriginal
    | NoJournal
    | UnfinishedArtifact
    | RevisionMismatch
    | MarkerExists

  /** What an operation does: the file states after each of its file operations, and its result. */
  datatype Effect = Effect(trace: seq<Files>, result: Result<(), SettingsError>)

  function End(f: Files, e: Effect): Files {
    Last(f, e.trace)
  }

  // ---- The operations ----------------------------------------------------

  function RemovePublished(f: Files): seq<Files> {
    if f.published.Some? then [f.(published := None)] else []
  }

  function RemoveJournal(f: Files): seq<Files> {
    if f.journal.Some? then [f.(journal := None)] else []
  }

  function RemoveOriginal(f: Files): seq<Files> {
    if f.original.Some? then [f.(original := None)] else []
  }

  /** Marker first, then journal, then original. */
  function CleanupTrace(f: Files): seq<Files> {
    RemovePublished(f)
    + RemoveJournal(f.(published := None))
    + RemoveOriginal(f.(published := None, journal := None))
  }

  /** Restores the original bytes, then cleans up. */
  function RestoreEffect(f: Files): Effect {
    if f.original.None? then Effect([], Err(NoOriginal))
    else if f.config.None? then Effect([], Err(NoConfig))
    else
      var restored := f.(config := f.original);
      Effect([restored] + CleanupTrace(restored), Ok(()))
  }

  function RecoverEffect(site: Site, f: Files): Effect {
    match f.journal
    case None => RecoverWithoutJournal(site, f)
    case Some(j) =>
      if j.version != 1 || j.configPath != site.configPath then Effect([], Err(ForeignJournal))
      else if !ValidRevision(j.intended) then Effect([], Err(InvalidRevision))
      else if f.original.None? then Effect([], Err(NoOriginal))
      else if f.published.Some? && f.config.None? then Effect([], Err(NoConfig))
      else if f.published.Some? && f.published.value == j.intended && site.revision(f.config.value) == j.intended
      then Effect(CleanupTrace(f), Ok(()))
      else RestoreEffect(f)
  }

  function RecoverWithoutJournal(site: Site, f: Files): Effect {
    match f.published
    case Some(marker) =>
      if !ValidRevision(marker) then Effect([], Err(InvalidRevision))
      else if f.config.None? then Effect([], Err(NoConfig))
      else if site.revision(f.config.value) != marker then Effect([], Err(CleanupMarkerMismatch))
      else Effect(RemoveOriginal(f) + [f.(original := None, published := None)], Ok(()))
    case None => Effect(RemoveOriginal(f), Ok(()))
  }

  function BeginEffect(site: Site, f: Files, original: Bytes, intended: string): Effect {
    var recovery := RecoverEffect(site, f);
    var r := End(f, recovery);
    if recovery.result.Err? then recovery
    else if !ValidRevision(intended) then Effect(recovery.trace, Err(InvalidRevision))
    else if r.journal.Some? || r.original.Some? || r.published.Some?
      then Effect(recovery.trace, Err(UnfinishedArtifact))
    else
      Effect(recovery.trace
             + [r.(original := Some(original)),
                r.(original := Some(original), journal := Some(Journal(1, site.configPath, intended)))],
             Ok(()))
  }

  /** The caller's atomic replacement of the configuration. */
  function ReplaceEffect(f: Files, contents: Bytes): Effect {
    if f.config.None? then Effect([], Err(NoConfig))
    else Effect([f.(config := Some(contents))], Ok(()))
  }

  function MarkPublishedEffect(site: Site, f: Files): Effect {
    if f.config.None? then Effect([], Err(NoConfig))
    else if f.journal.None? then Effect([], Err(NoJournal))
    else if site.revision(f.config.value) != f.journal.value.intended then Effect([], Err(RevisionMismatch))
    else if f.published.Some? then Effect([], Err(MarkerExists))
    else Effect([f.(published := Some(site.revision(f.config.value)))], Ok(()))
  }

  /** Journal first: its removal is the durable commit. */
  function CompleteEffect(f: Files): Effect {
    Effect(RemoveJournal(f)
           + RemoveOriginal(f.(journal := None))
           + RemovePublished(f.(journal := None, original := None)),
           Ok(()))
  }

  function RollbackEffect(f: Files): Effect {
    if f.journal.None? then Effect([], Err(NoJournal)) else RestoreEffect(f)
  }

  // ---- Reachable states --------------------------------------------------

  function JournalFor(site: Site, new': Bytes): Journal {
    Journal(1, site.configPath, site.revision(new'))
  }

  /**
   The configuration is the old or the new bytes; a journal comes with the
   original copy; a marker without a journal is the digest of the configuration.
   */
  ghost predicate Sound(site: Site, f: Files, old': Bytes, new': Bytes) {
    && (f.config == Some(old') || f.config == Some(new'))
    && (f.original.Some? ==> f.original == Some(old'))
    && (f.journal.Some? ==>
          && f.journal == Some(JournalFor(site, new'))
          && f.original == Some(old')
          && (f.published.Some? ==> f.published == Some(site.revision(new'))))
    && (f.journal.None? && f.published.Some? ==> f.published == Some(site.revision(f.config.value)))
  }

  function Idle(config: Bytes): Files {
    Files(Some(config), None, None, None)
  }

  /** The configuration that a recovery run to its end leaves. */
  function Settled(site: Site, f: Files): Option<Bytes> {
    End(f, RecoverEffect(site, f)).config
  }

  /**
   Recovery never fails in a reachable state, ends with only the configuration
   left, holding the old or the new bytes, and every file state on the way is
   itself reachable, so recovery may be stopped and started again anywhere.
   */
  lemma RecoveryIsSound(site: Site, f: Files, old': Bytes, new': Bytes)
    requires Lawful(site) && Sound(site, f, old', new')
    ensures var e := RecoverEffect(site, f);
            && e.result.Ok?
            && (End(f, e) == Idle(old') || End(f, e) == Idle(new'))
            && forall k | 0 <= k < |e.trace| :: Sound(site, e.trace[k], old', new')
  {
    assert ValidRevision(site.revision(new'));
    assert ValidRevision(site.revision(f.config.value));
  }

  /** Committed: without a journal the configuration is final, whatever recovery does or is stopped in. */
  lemma CommittedConfigurationStays(site: Site, f: Files, old': Bytes, new': Bytes)
    requires Lawful(site) && Sound(site, f, old', new') && f.journal.None?
    ensures var e := RecoverEffect(site, f);
            && End(f, e) == Idle(f.config.value)
            && forall k | 0 <= k < |e.trace| :: e.trace[k].journal.None? && e.trace[k].config == f.config
  {
    assert ValidRevision(site.revision(f.config.value));
  }

  /** What a recovery will decide: with a journal, the new bytes only if they are in place and marked. */
  lemma RecoveryDecides(site: Site, f: Files, old': Bytes, new': Bytes)
    requires Lawful(site) && Sound(site, f, old', new') && f.journal.Some?
    ensures Settled(site, f) == if f.published.Some? && site.revision(f.config.value) == site.revision(new')
                                then f.config else Some(old')
  {
    assert ValidRevision(site.revision(new'));
  }

  // ---- Whole runs --------------------------------------------------------

  datatype Operation =
    | Recover
    | Begin(contents: Bytes)
    | Replace
    | MarkPublished
    | Complete
    | Rollback

  /** How far the caller that holds the transaction has come. */
  datatype Stage = NoTransaction | Begun | Replaced | Marked

  /** The files, the caller's progress, and the two configurations of the latest transaction. */
  datatype State = State(files: Files, stage: Stage, previous: Bytes, intended: Bytes)

  /** The order in which the settings service calls a transaction; a failed step may be rolled back. */
  predicate Allowed(stage: Stage, op: Operation) {
    match op
    case Recover => stage.NoTransaction?
    case Begin(_) => stage.NoTransaction?
    case Replace => stage.Begun?
    case MarkPublished => stage.Replaced?
    case Complete => stage.Marked?
    case Rollback => !stage.NoTransaction?
  }

  /** The original handed to `Begin` is the configuration as recovery leaves it. */
  function EffectOf(site: Site, s: State, op: Operation): Effect {
    match op
    case Recover => RecoverEffect(site, s.files)
    case Begin(contents) =>
      var settled := Settled(site, s.files);
      BeginEffect(site, s.files, settled.GetOr([]), site.revision(contents))
    case Replace => ReplaceEffect(s.files, s.intended)
    case MarkPublished => MarkPublishedEffect(site, s.files)
    case Complete => CompleteEffect(s.files)
    case Rollback => RollbackEffect(s.files)
  }

  function NextStage(op: Operation): Stage {
    match op
    case Begin(_) => Begun
    case Replace => Replaced
    case MarkPublished => Marked
    case _ => NoTransaction
  }

  predicate Finishes(site: Site, s: State, call: Call<Operation>) {
    Completes(EffectOf(site, s, call.op).trace, call.crash)
  }

  /** A transaction names its two configurations once its recovery part is over. */
  function After(site: Site, s: State, call: Call<Operation>): State {
    var files := Stopped(s.files, EffectOf(site, s, call.op).trace, call.crash);
    var stage := if Finishes(site, s, call) then NextStage(call.op) else NoTransaction;
    match call.op
    case Begin(contents) =>
      var n := |RecoverEffect(site, s.files).trace|;
      if Finishes(site, s, call) || call.crash.value > n
      then State(files, stage, Settled(site, s.files).GetOr(s.previous), contents)
      else s.(files := files, stage := stage)
    case _ => s.(files := files, stage := stage)
  }

  function RunAfter(site: Site, s: State, calls: seq<Call<Operation>>): State {
    if calls == [] then s
    else After(site, RunAfter(site, s, calls[..|calls| - 1]), calls[|calls| - 1])
  }

  predicate AllAllowed(site: Site, s: State, calls: seq<Call<Operation>>) {
    calls == [] ||
    (AllAllowed(site, s, calls[..|calls| - 1])
     && Allowed(RunAfter(site, s, calls[..|calls| - 1]).stage, calls[|calls| - 1].op))
  }

  /** The files that each stage of a live transaction stands for. */
  function StageFiles(site: Site, stage: Stage, old': Bytes, new': Bytes): Files {
    var journal := Some(JournalFor(site, new'));
    match stage
    case NoTransaction => Idle(old')
    case Begun => Files(Some(old'), journal, Some(old'), None)
    case Replaced => Files(Some(new'), journal, Some(old'), None)
    case Marked => Files(Some(new'), journal, Some(old'), Some(site.revision(new')))
  }

  ghost predicate Invariant(site: Site, s: State) {
    && Sound(site, s.files, s.previous, s.intended)
    && (!s.stage.NoTransaction? ==> s.files == StageFiles(site, s.stage, s.previous, s.intended))
  }

  /** Every file state of a call is sound for the transaction that has named it. */
  lemma TransactionStep(site: Site, s: State, op: Operation)
    requires Lawful(site) && Invariant(site, s) && Allowed(s.stage, op) && !op.Begin? && !op.Recover?
    ensures var e := EffectOf(site, s, op);
            && e.result.Ok?
            && (forall k | 0 <= k < |e.trace| :: Sound(site, e.trace[k], s.previous, s.intended))
            && Sound(site, End(s.files, e), s.previous, s.intended)
            && (op.Replace? || op.MarkPublished? ==>
              End(s.files, e) == StageFiles(site, NextStage(op), s.previous, s.intended))
            && (op.Complete? ==> End(s.files, e) == Idle(s.intended))
            && (op.Rollback? ==> End(s.files, e) == Idle(s.previous))
  {
  }

  lemma BeginStep(site: Site, s: State, contents: Bytes)
    requires Lawful(site) && Invariant(site, s) && s.stage.NoTransaction?
    ensures var e := EffectOf(site, s, Begin(contents));
            var n := |RecoverEffect(site, s.files).trace|;
            var settled := Settled(site, s.files);
            && e.result.Ok? && settled.Some? && |e.trace| == n + 2
            && (forall k | 0 <= k < n :: Sound(site, e.trace[k], s.previous, s.intended))
            && Sound(site, e.trace[n], settled.value, contents)
            && e.trace[n + 1] == StageFiles(site, Begun, settled.value, contents)
            && Sound(site, e.trace[n + 1], settled.value, contents)
  {
    RecoveryIsSound(site, s.files, s.previous, s.intended);
    assert ValidRevision(site.revision(contents));
  }

  lemma CallKeepsInvariant(site: Site, s: State, call: Call<Operation>)
    requires Lawful(site) && Invariant(site, s) && Allowed(s.stage, call.op)
    ensures EffectOf(site, s, call.op).result.Ok?
    ensures Invariant(site, After(site, s, call))
  {
    match call.op
    case Recover => RecoverKeepsInvariant(site, s, call);
    case Begin(contents) => BeginKeepsInvariant(site, s, contents, call);
    case _ => TransactionKeepsInvariant(site, s, call);
  }

  lemma RecoverKeepsInvariant(site: Site, s: State, call: Call<Operation>)
    requires Lawful(site) && Invariant(site, s) && Allowed(s.stage, call.op) && call.op.Recover?
    ensures EffectOf(site, s, call.op).result.Ok? && Invariant(site, After(site, s, call))
  {
    RecoveryIsSound(site, s.files, s.previous, s.intended);
  }

  lemma BeginKeepsInvariant(site: Site, s: State, contents: Bytes, call: Call<Operation>)
    requires Lawful(site) && Invariant(site, s) && Allowed(s.stage, call.op) && call.op == Begin(contents)
    ensures EffectOf(site, s, call.op).result.Ok? && Invariant(site, After(site, s, call))
  {
    BeginStep(site, s, contents);
    var e, n := EffectOf(site, s, call.op), |RecoverEffect(site, s.files).trace|;
    if !Finishes(site, s, call) && 0 < call.crash.value <= n {
      assert Sound(site, e.trace[call.crash.value - 1], s.previous, s.intended);
    }
  }

  lemma TransactionKeepsInvariant(site: Site, s: State, call: Call<Operation>)
    requires Lawful(site) && Invariant(site, s) && Allowed(s.stage, call.op) && !call.op.Begin? && !call.op.Recover?
    ensures EffectOf(site, s, call.op).result.Ok? && Invariant(site, After(site, s, call))
  {
    TransactionStep(site, s, call.op);
  }

  /**
   Whole runs of settings updates with crashes anywhere, recovery included: no
   call ever fails, and recovery always leaves exactly the original or the
   intended bytes of the latest transaction.
   */
  lemma {:induction false} RunRecoversOriginalOrIntended(site: Site, s: State, calls: seq<Call<Operation>>)
    requires Lawful(site) && Invariant(site, s) && AllAllowed(site, s, calls)
    ensures var e := RunAfter(site, s, calls);
            && Invariant(site, e)
            && RecoverEffect(site, e.files).result.Ok?
            && (Settled(site, e.files) == Some(e.previous) || Settled(site, e.files) == Some(e.intended))
    ensures calls != [] ==> EffectOf(site, RunAfter(site, s, calls[..|calls| - 1]), calls[|calls| - 1].op).result.Ok?
  {
    if calls != [] {
      var init := calls[..|calls| - 1];
      RunRecoversOriginalOrIntended(site, s, init);
      CallKeepsInvariant(site, RunAfter(site, s, init), calls[|calls| - 1]);
    }
    var e := RunAfter(site, s, calls);
    RecoveryIsSound(site, e.files, e.previous, e.intended);
  }

  // ---- Durability --------------------------------------------------------

  /** Recoveries of `f`, each stopped after the given number of file operations. */
  function StoppedRecoveries(site: Site, f: Files, cuts: seq<nat>): Files
    decreases |cuts|
  {
    if cuts == [] then f
    else StoppedRecoveries(site, StoppedRecovery(site, f, cuts[0]), cuts[1..])
  }

  function StoppedRecovery(site: Site, f: Files, cut: nat): Files {
    Stopped(f, RecoverEffect(site, f).trace, Some(cut))
  }

  /** The outcome is fixed: nothing left to undo, or nothing that could keep the new bytes. */
  predicate Fixed(f: Files, outcome: Bytes) {
    if f.journal.None? then f.config == Some(outcome)
    else f.published.None? && f.original == Some(outcome)
  }

  lemma FixedStaysFixed(site: Site, f: Files, old': Bytes, new': Bytes, outcome: Bytes, cut: nat)
    requires Lawful(site) && Sound(site, f, old', new') && Fixed(f, outcome)
    ensures var r := StoppedRecovery(site, f, cut); Sound(site, r, old', new') && Fixed(r, outcome)
    ensures Settled(site, f) == Some(outcome)
  {
    RecoveryIsSound(site, f, old', new');
    if f.journal.None? {
      CommittedConfigurationStays(site, f, old', new');
    } else {
      assert ValidRevision(site.revision(new'));
    }
  }

  lemma {:induction false} FixedOutcome(site: Site, f: Files, old': Bytes, new': Bytes, outcome: Bytes, cuts: seq<nat>)
    requires Lawful(site) && Sound(site, f, old', new') && Fixed(f, outcome)
    ensures Settled(site, StoppedRecoveries(site, f, cuts)) == Some(outcome)
    decreases |cuts|
  {
    if cuts == [] {
      FixedStaysFixed(site, f, old', new', outcome, 0);
    } else {
      FixedStaysFixed(site, f, old', new', outcome, cuts[0]);
      FixedOutcome(site, StoppedRecovery(site, f, cuts[0]), old', new', outcome, cuts[1..]);
    }
  }

  /** Once `complete` has removed the journal, the intended bytes stay through any stopped recoveries. */
  lemma CompletedUpdateIsDurable(site: Site, old': Bytes, new': Bytes, done: nat, cuts: seq<nat>)
    requires Lawful(site)
    requires 1 <= done <= |CompleteEffect(StageFiles(site, Marked, old', new')).trace|
    ensures var f := CompleteEffect(StageFiles(site, Marked, old', new')).trace[done - 1];
            Settled(site, StoppedRecoveries(site, f, cuts)) == Some(new')
  {
    var f := CompleteEffect(StageFiles(site, Marked, old', new')).trace[done - 1];
    FixedOutcome(site, f, old', new', new', cuts);
  }

  /** The first recovery that did anything before it was stopped. */
  function FirstEffective(cuts: seq<nat>): nat {
    if cuts == [] then 0 else if cuts[0] != 0 then cuts[0] else FirstEffective(cuts[1..])
  }

  /**
   The exact durability of a published update whose `complete` has not begun.
   The intended bytes survive any number of stopped recoveries if and only if
   the first recovery that got to do anything was not stopped right after its
   first file operation, the removal of the marker (or nothing was to change).
   */
  lemma {:induction false} PublishedUpdateSurvivesIff(site: Site, old': Bytes, new': Bytes, cuts: seq<nat>)
    requires Lawful(site)
    ensures Settled(site, StoppedRecoveries(site, StageFiles(site, Marked, old', new'), cuts)) == Some(new')
            <==> FirstEffective(cuts) != 1 || old' == new'
    decreases |cuts|
  {
    var f := StageFiles(site, Marked, old', new');
    RecoveryDecides(site, f, old', new');
    if cuts != [] {
      if cuts[0] == 0 {
        PublishedUpdateSurvivesIff(site, old', new', cuts[1..]);
      } else {
        var r := StoppedRecovery(site, f, cuts[0]);
        assert ValidRevision(site.revision(new'));
        assert RecoverEffect(site, f).trace == CleanupTrace(f);
        FixedOutcome(site, r, old', new', if cuts[0] == 1 then old' else new', cuts[1..]);
      }
    }
  }
}
