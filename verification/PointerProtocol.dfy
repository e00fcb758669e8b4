/**
 The active pointer as three optional files. Each operation is the list of file
 states it passes through, one per rename, removal or written prefix; a crash
 may stop it after any of them.
 Source: crates/centrald-common/src/active_pointer.rs
 */
module PointerProtocol {
  import opened Wrappers
  import opened PointerValues
  import opened CrashTraces

  /** The contents of current.pointer and its next and previous siblings. */
  datatype Files = Files(current: Option<string>, next: Option<string>, previous: Option<string>)

  /** The file states that recovery passes through after `f`. */
  function RecoverTrace(f: Files): seq<Files> {
    if f.current.Some? then
      (if f.next.Some? then [f.(next := None)] else [])
    else if f.next.Some? then [Files(f.next, None, f.previous)]
    else if f.previous.Some? then [Files(f.previous, None, None)]
    else []
  }

  function Recover(f: Files): Files {
    Last(f, RecoverTrace(f))
  }

  /** Writing the staged file: every prefix of the line may be what a crash leaves. */
  function StagingTrace(f: Files, v: string): seq<Files> {
    seq(|Line(v)| + 1, k requires 0 <= k <= |Line(v)| => f.(next := Some(Line(v)[..k])))
  }

  /** What goes wrong in a publication after the staged file is written: nothing, or the last rename, or its sync. */
  datatype Fault = NoFault | RenameFault | SyncFault

  /** Putting the staged pointer in force over the current one; after a fault it is taken back. */
  function SwapTrace(current: Option<string>, previous: Option<string>, staged: Option<string>, fault: Fault)
    : seq<Files>
  {
    var kept := if current.Some? then current else previous;
    (if current.Some? then [Files(None, staged, kept)] else [])
    + (if fault.RenameFault? then [] else [Files(staged, None, kept)])
    + (if fault.NoFault? then [] else [Files(None, None, kept)])
    + (if !fault.NoFault? && current.Some? then [Files(kept, None, None)] else [])
  }

  /** Publication from a recovered state with nothing pending. */
  function PublishTrace(f: Files, v: string, fault: Fault): seq<Files> {
    StagingTrace(f, v) + SwapTrace(f.current, f.previous, Some(Line(v)), fault)
  }

  function CommitTrace(f: Files): seq<Files> {
    (if f.previous.Some? then [f.(previous := None)] else [])
    + (if f.next.Some? then [f.(previous := None, next := None)] else [])
  }

  function RollbackTrace(f: Files): seq<Files> {
    (if f.current.Some? then [f.(current := None)] else [])
    + (if f.previous.Some? then [Files(f.previous, f.next, None)] else [])
    + (if f.next.Some? then [Files(f.previous, None, None)] else [])
  }

  datatype Operation =
    | Read
    | ReadPrevious
    | Publish(value: string, fault: Fault)
    | CommitRecovered
    | RollbackIfPrevious
    | Rollback

  predicate NothingPending(f: Files) {
    f.previous.None? && f.next.None?
  }

  /** All file states an operation passes through; every one begins with recovery. */
  function Trace(f: Files, op: Operation): seq<Files> {
    var r := Recover(f);
    match op
    case Read => RecoverTrace(f)
    case ReadPrevious => RecoverTrace(f)
    case Publish(v, fault) =>
      if !ValidValue(v) then []
      else if !NothingPending(r) then RecoverTrace(f)
      else RecoverTrace(f) + PublishTrace(r, v, fault)
    case CommitRecovered => RecoverTrace(f) + CommitTrace(r)
    case RollbackIfPrevious => RecoverTrace(f) + (if r.previous.Some? then RollbackTrace(r) else [])
    case Rollback => RecoverTrace(f) + RollbackTrace(r)
  }

  // ---- Recovery ----------------------------------------------------------

  /** Nothing staged, and a previous pointer only next to a current one. */
  predicate Normal(f: Files) {
    f.next.None? && (f.previous.Some? ==> f.current.Some?)
  }

  /**
   From every combination of the three files, recovery takes at most one file
   operation, ends in normal form, changes nothing in normal form, and keeps a
   pointer whenever any file held one.
   */
  lemma RecoveryNormalForm(f: Files)
    ensures |RecoverTrace(f)| <= 1
    ensures Normal(Recover(f))
    ensures Normal(f) <==> Recover(f) == f
    ensures Recover(Recover(f)) == Recover(f)
    ensures Recover(f).current.Some? <==> f.current.Some? || f.next.Some? || f.previous.Some?
  {
  }

  // ---- What the files mean ----------------------------------------------

  /** Either one pointer is in force, or a second one is published over it and undecided. */
  datatype Meaning = Committed(value: string) | Published(previous: string, value: string)

  function FilesOf(m: Meaning): Files {
    match m
    case Committed(c) => Files(Some(Line(c)), None, None)
    case Published(c, p) => Files(Some(Line(p)), None, Some(Line(c)))
  }

  /** The files are a state that recovery turns into `m`. */
  predicate Means(f: Files, m: Meaning) {
    Recover(f) == FilesOf(m)
  }

  /** A set of files has at most one meaning. */
  lemma MeaningIsUnique(f: Files, m: Meaning, n: Meaning)
    requires Means(f, m) && Means(f, n)
    ensures m == n
  {
    LineInjective(m.value, n.value);
    if m.Published? && n.Published? { LineInjective(m.previous, n.previous); }
  }

  lemma LineInjective(v: string, w: string)
    ensures Line(v) == Line(w) ==> v == w
  {
    assert Line(v)[..|Line(v)| - 1] == v && Line(w)[..|Line(w)| - 1] == w;
  }

  /** The meaning a completed operation leaves. */
  function Target(m: Meaning, op: Operation): Meaning {
    match (m, op)
    case (Committed(c), Publish(v, fault)) => if ValidValue(v) && fault.NoFault? then Published(c, v) else m
    case (Published(c, p), CommitRecovered) => Committed(p)
    case (Published(c, p), RollbackIfPrevious) => Committed(c)
    case (Published(c, p), Rollback) => Committed(c)
    case _ => m
  }

  /** The other meaning an operation may have on its way: its target, or the publication that it takes back. */
  function Passing(m: Meaning, op: Operation): Meaning {
    match (m, op)
    case (Committed(c), Publish(v, _)) => if ValidValue(v) then Published(c, v) else m
    case _ => Target(m, op)
  }

  /** `Rollback` consumes a publication, so it is only called on a published state. */
  predicate Allowed(m: Meaning, op: Operation) {
    op.Rollback? ==> m.Published?
  }

  /**
   Each operation is atomic under crashes: every file state it passes through
   still means what it meant before or means what it is to mean (a publication
   that is taken back has that meaning in between), and the last state means the
   target.
   */
  lemma OperationIsAtomic(f: Files, m: Meaning, op: Operation, k: nat)
    requires Means(f, m) && Allowed(m, op) && k < |Trace(f, op)|
    ensures Means(Trace(f, op)[k], m) || Means(Trace(f, op)[k], Passing(m, op))
    ensures k == |Trace(f, op)| - 1 ==> Means(Trace(f, op)[k], Target(m, op))
  {
    RecoveryNormalForm(f);
    match op
    case Publish(v, fault) => PublishIsAtomic(f, m, v, fault, k);
    case _ =>
  }

  /** While the new pointer is staged, the one in force stays. */
  lemma StagingMeans(c: string, v: string, k: nat)
    requires k <= |Line(v)|
    ensures Means(StagingTrace(FilesOf(Committed(c)), v)[k], Committed(c))
  {
  }

  /** While it is swapped in, or taken back, one of the two is meant. */
  lemma SwapMeans(c: string, v: string, fault: Fault, k: nat)
    requires k < |SwapTrace(Some(Line(c)), None, Some(Line(v)), fault)|
    ensures var swap := SwapTrace(Some(Line(c)), None, Some(Line(v)), fault);
      && (Means(swap[k], Committed(c)) || Means(swap[k], Published(c, v)))
      && (k == |swap| - 1 ==> Means(swap[k], if fault.NoFault? then Published(c, v) else Committed(c)))
  {
  }

  lemma PublishIsAtomic(f: Files, m: Meaning, v: string, fault: Fault, k: nat)
    requires Means(f, m) && k < |Trace(f, Publish(v, fault))|
    ensures var s := Trace(f, Publish(v, fault))[k]; Means(s, m) || Means(s, Passing(m, Publish(v, fault)))
    ensures k == |Trace(f, Publish(v, fault))| - 1 ==>
        Means(Trace(f, Publish(v, fault))[k], Target(m, Publish(v, fault)))
  {
    RecoveryNormalForm(f);
    if ValidValue(v) && m.Committed? {
      PublicationIsAtomic(f, m.value, v, fault, k);
    }
  }

  lemma PublicationIsAtomic(f: Files, c: string, v: string, fault: Fault, k: nat)
    requires Means(f, Committed(c)) && ValidValue(v) && k < |Trace(f, Publish(v, fault))|
    ensures var trace := Trace(f, Publish(v, fault));
      && (Means(trace[k], Committed(c)) || Means(trace[k], Published(c, v)))
      && (k == |trace| - 1 ==> Means(trace[k], if fault.NoFault? then Published(c, v) else Committed(c)))
  {
    RecoveryNormalForm(f);
    var recovery, staging := RecoverTrace(f), StagingTrace(FilesOf(Committed(c)), v);
    var swap := SwapTrace(Some(Line(c)), None, Some(Line(v)), fault);
    var trace := Trace(f, Publish(v, fault));
    assert trace == recovery + staging + swap && |swap| > 0;
    var n, m := |recovery|, |recovery| + |staging|;
    if k < n {
      assert trace[k] == recovery[k];
    } else if k < m {
      assert trace[k] == staging[k - n];
      StagingMeans(c, v, k - n);
    } else {
      assert trace[k] == swap[k - m];
      SwapMeans(c, v, fault, k - m);
    }
  }

  /** An operation that does nothing leaves the meaning, and then has no effect to make. */
  lemma EmptyTraceKeepsMeaning(f: Files, m: Meaning, op: Operation)
    requires Means(f, m) && Allowed(m, op) && Trace(f, op) == []
    ensures Target(m, op) == m && Means(f, m)
  {
    RecoveryNormalForm(f);
  }

  // ---- Whole runs --------------------------------------------------------

  function After(f: Files, call: Call<Operation>): Files {
    Stopped(f, Trace(f, call.op), call.crash)
  }

  predicate Finishes(f: Files, call: Call<Operation>) {
    Completes(Trace(f, call.op), call.crash)
  }

  /** The files after a list of calls. */
  function RunFiles(f: Files, calls: seq<Call<Operation>>): Files {
    if calls == [] then f
    else After(RunFiles(f, calls[..|calls| - 1]), calls[|calls| - 1])
  }

  /** The mutator holds an undecided publication: it published and was not stopped since. */
  function HoldsPublication(f: Files, calls: seq<Call<Operation>>): bool {
    if calls == [] then false
    else
      var init, last := calls[..|calls| - 1], calls[|calls| - 1];
      var before := RunFiles(f, init);
      match last.op
      case Publish(v, fault) => Finishes(before, last) && ValidValue(v) && fault.NoFault?
        && NothingPending(Recover(before))
      case Read => HoldsPublication(f, init) && Finishes(before, last)
      case ReadPrevious => HoldsPublication(f, init) && Finishes(before, last)
      case _ => false
  }

  /** One mutator at a time: a publication is rolled back only by the call that holds it. */
  predicate Disciplined(f: Files, calls: seq<Call<Operation>>) {
    calls == [] ||
    (Disciplined(f, calls[..|calls| - 1])
     && (calls[|calls| - 1].op.Rollback? ==> HoldsPublication(f, calls[..|calls| - 1])))
  }

  /**
   The meaning after a call: a completed one reaches its target, and one that a
   crash stopped has either had its whole effect or none.
   */
  function NextMeaning(m: Meaning, f: Files, call: Call<Operation>): Meaning {
    if Finishes(f, call) then Target(m, call.op)
    else if Means(After(f, call), m) then m
    else Passing(m, call.op)
  }

  function MeaningAfter(m: Meaning, f: Files, calls: seq<Call<Operation>>): Meaning {
    if calls == [] then m
    else
      var init := calls[..|calls| - 1];
      NextMeaning(MeaningAfter(m, f, init), RunFiles(f, init), calls[|calls| - 1])
  }

  lemma CallKeepsMeaning(f: Files, m: Meaning, call: Call<Operation>)
    requires Means(f, m) && Allowed(m, call.op)
    ensures Means(After(f, call), NextMeaning(m, f, call))
  {
    var trace := Trace(f, call.op);
    if trace == [] {
      EmptyTraceKeepsMeaning(f, m, call.op);
    } else if Finishes(f, call) {
      OperationIsAtomic(f, m, call.op, |trace| - 1);
    } else if call.crash.value > 0 {
      OperationIsAtomic(f, m, call.op, call.crash.value - 1);
    }
  }

  /**
   Safety over whole runs: from a committed pointer, with one mutator, readers
   anywhere and crashes between any two file operations, the files always mean
   one committed pointer, or one published over it; a publication that is held
   is still there to be decided.
   */
  lemma {:induction false} RunKeepsMeaning(f: Files, c: string, calls: seq<Call<Operation>>)
    requires Means(f, Committed(c)) && Disciplined(f, calls)
    ensures Means(RunFiles(f, calls), MeaningAfter(Committed(c), f, calls))
    ensures HoldsPublication(f, calls) ==> MeaningAfter(Committed(c), f, calls).Published?
  {
    if calls != [] {
      var init, last := calls[..|calls| - 1], calls[|calls| - 1];
      RunKeepsMeaning(f, c, init);
      CallKeepsMeaning(RunFiles(f, init), MeaningAfter(Committed(c), f, init), last);
    }
  }

  /** What a reader gets from these files: recovery, then the current pointer. */
  function ReadCurrent(f: Files): Result<string, PointerError> {
    match Recover(f).current
    case None => Err(Missing)
    case Some(content) => ReadValue(content)
  }

  /** What the file of a published name reads as; for a name without outer whitespace it is the name. */
  function ReadBack(v: string): Result<string, PointerError> {
    ReadValue(Line(v))
  }

  /**
   No reader ever finds the pointer missing or torn: after any run, and at every
   file state inside any further operation, what is read is the pointer in force
   or the one that operation puts in force, as it was written.
   */
  lemma ReaderSeesCommittedOrPublished(f: Files, c: string, calls: seq<Call<Operation>>, op: Operation)
    requires Means(f, Committed(c)) && Disciplined(f, calls)
    ensures ReadCurrent(RunFiles(f, calls)) == ReadBack(MeaningAfter(Committed(c), f, calls).value)
    ensures (op.Rollback? ==> HoldsPublication(f, calls)) ==>
              var m, end := MeaningAfter(Committed(c), f, calls), RunFiles(f, calls);
              forall k | 0 <= k < |Trace(end, op)| ::
                || ReadCurrent(Trace(end, op)[k]) == ReadBack(m.value)
                || ReadCurrent(Trace(end, op)[k]) == ReadBack(Passing(m, op).value)
  {
    RunKeepsMeaning(f, c, calls);
    var m, end := MeaningAfter(Committed(c), f, calls), RunFiles(f, calls);
    if op.Rollback? ==> HoldsPublication(f, calls) {
      forall k | 0 <= k < |Trace(end, op)|
        ensures ReadCurrent(Trace(end, op)[k]) == ReadBack(m.value)
            || ReadCurrent(Trace(end, op)[k]) == ReadBack(Passing(m, op).value)
      {
        OperationIsAtomic(end, m, op, k);
      }
    }
  }

  /** A name that is accepted and comes back unchanged. */
  predicate Canonical(v: string) {
    ValidValue(v) && Trim(v) == v
  }

  /** When only such names are published, the reader gets exactly the name in force. */
  lemma {:induction false} ReaderGetsTheName(f: Files, c: string, calls: seq<Call<Operation>>)
    requires Means(f, Committed(c)) && Disciplined(f, calls) && Canonical(c)
    requires forall i | 0 <= i < |calls| && calls[i].op.Publish? :: Canonical(calls[i].op.value)
    ensures ReadCurrent(RunFiles(f, calls)) == Ok(MeaningAfter(Committed(c), f, calls).value)
  {
    RunKeepsMeaning(f, c, calls);
    MeaningStaysCanonical(f, c, calls);
    ReadsBackExactlyTrimmedNames(MeaningAfter(Committed(c), f, calls).value);
  }

  predicate CanonicalMeaning(m: Meaning) {
    Canonical(m.value) && (m.Published? ==> Canonical(m.previous))
  }

  lemma {:induction false} MeaningStaysCanonical(f: Files, c: string, calls: seq<Call<Operation>>)
    requires Canonical(c) && forall i | 0 <= i < |calls| && calls[i].op.Publish? :: Canonical(calls[i].op.value)
    ensures CanonicalMeaning(MeaningAfter(Committed(c), f, calls))
  {
    if calls != [] {
      var init := calls[..|calls| - 1];
      assert forall i | 0 <= i < |init| :: init[i] == calls[i];
      MeaningStaysCanonical(f, c, init);
    }
  }

  /** Rolling back a completed publication restores exactly the files before it. */
  lemma RollbackUndoesPublish(f: Files, c: string, v: string)
    requires Means(f, Committed(c)) && ValidValue(v)
    ensures var published := After(f, Call(Publish(v, NoFault), None));
            && published == FilesOf(Published(c, v))
            && After(published, Call(Rollback, None)) == Recover(f)
            && After(published, Call(RollbackIfPrevious, None)) == Recover(f)
  {
    CallKeepsMeaning(f, Committed(c), Call(Publish(v, NoFault), None));
  }

  /** Publication never overwrites an undecided one: it refuses and keeps both pointers. */
  lemma PublishRefusesWhilePending(f: Files, c: string, p: string, v: string, fault: Fault)
    requires Means(f, Published(c, p))
    ensures Last(f, Trace(f, Publish(v, fault))) == (if ValidValue(v) then FilesOf(Published(c, p)) else f)
  {
  }

  /**
   Why a publication must be rolled back by its holder only: once someone else
   has committed it, rolling it back removes the committed pointer.
   */
  lemma StaleRollbackLosesThePointer(c: string)
    ensures ReadCurrent(After(FilesOf(Committed(c)), Call(Rollback, None))) == Err(Missing)
  {
  }
}
