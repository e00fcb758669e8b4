/**
 The active pointer as code: each method changes the three files step by step,
 and is proved to pass through exactly the file states of its protocol
 operation, so that a crash inside it is a cut of that operation.
 Source: crates/centrald-common/src/active_pointer.rs
 */
module ActivePointers {
  import opened Wrappers
  import opened PointerValues
  import opened PointerProtocol
  import opened CrashTraces

  class ActivePointer {
    var current: Option<string>
    var next: Option<string>
    var previous: Option<string>

    /** Every file state since the object was opened, in order. */
    ghost var trace: seq<Files>

    constructor (files: Files)
      ensures Now() == files && trace == []
    {
      current, next, previous := files.current, files.next, files.previous;
      trace := [];
    }

    function Now(): Files
      reads this
    {
      Files(current, next, previous)
    }

    /** One file operation has just been made durable. */
    ghost method Note()
      modifies this`trace
      ensures trace == old(trace) + [Now()]
    {
      trace := trace + [Now()];
    }

    method RecoverLocked()
      modifies this
      ensures Now() == Recover(old(Now())) && trace == old(trace) + RecoverTrace(old(Now()))
    {
      if current.Some? {
        if next.Some? {
          next := None;
          Note();
        }
        return;
      }
      if next.Some? {
        current, next := next, None;
        Note();
        return;
      }
      if previous.Some? {
        current, previous := previous, None;
        Note();
      }
    }

    method Read() returns (value: Result<string, PointerError>)
      modifies this
      ensures value == ReadCurrent(old(Now()))
      ensures Now() == Recover(old(Now())) && trace == old(trace) + Trace(old(Now()), Operation.Read)
    {
      RecoverLocked();
      value := if current.None? then Err(Missing) else ReadValue(current.value);
    }

    method Previous() returns (value: Result<Option<string>, PointerError>)
      modifies this
      ensures value == match Recover(old(Now())).previous
                       case None => Ok(None)
                       case Some(content) =>
                         (match ReadValue(content) case Ok(v) => Ok(Some(v)) case Err(e) => Err(e))
      ensures Now() == Recover(old(Now())) && trace == old(trace) + Trace(old(Now()), ReadPrevious)
    {
      RecoverLocked();
      if previous.None? {
        return Ok(None);
      }
      var v := ReadValue(previous.value);
      value := if v.Ok? then Ok(Some(v.value)) else Err(v.error);
    }

    /** Writes the staged file byte by byte; a crash may leave any prefix. */
    method WriteNewPointer(value: string)
      requires next.None?
      modifies this
      ensures Now() == old(Now()).(next := Some(Line(value)))
      ensures trace == old(trace) + StagingTrace(old(Now()), value)
    {
      var line := Line(value);
      ghost var f := Now();
      next := Some("");
      Note();
      assert line[..0] == "";
      var k := 0;
      while k < |line|
        invariant 0 <= k <= |line| && Now() == f.(next := Some(line[..k]))
        invariant trace == old(trace) + StagingTrace(f, value)[..k + 1]
      {
        k := k + 1;
        next := Some(line[..k]);
        Note();
        assert StagingTrace(f, value)[..k + 1] == StagingTrace(f, value)[..k] + [Now()];
      }
      assert line[..|line|] == line;
      assert StagingTrace(f, value)[..|line| + 1] == StagingTrace(f, value);
    }

    /** Publishes a name over the current one; a fault in the last rename or its sync takes it back. */
    method Publish(value: string, fault: Fault) returns (r: Result<(), PointerError>)
      modifies this
      ensures r == if !ValidValue(value) then Err(InvalidValue)
                   else if !NothingPending(Recover(old(Now()))) then Err(PendingPublication)
                   else if fault.NoFault? then Ok(()) else Err(IoFailed)
      ensures trace == old(trace) + Trace(old(Now()), Operation.Publish(value, fault))
      ensures Now() == Last(old(Now()), Trace(old(Now()), Operation.Publish(value, fault)))
    {
      if !ValidValue(value) {
        return Err(InvalidValue);
      }
      ghost var before := Now();
      RecoverLocked();
      ghost var f := Now();
      RecoveryNormalForm(before);
      if previous.Some? || next.Some? {
        return Err(PendingPublication);
      }
      r := PublishRecovered(value, fault);
      ConcatIsAssociative(old(trace), RecoverTrace(before), PublishTrace(f, value, fault));
      LastOfBoth(before, RecoverTrace(before), PublishTrace(f, value, fault));
    }

    /** Publication once recovery is over and nothing is pending. */
    method PublishRecovered(value: string, fault: Fault) returns (r: Result<(), PointerError>)
      requires NothingPending(Now())
      modifies this
      ensures r == if fault.NoFault? then Ok(()) else Err(IoFailed)
      ensures trace == old(trace) + PublishTrace(old(Now()), value, fault)
      ensures Now() == Last(old(Now()), PublishTrace(old(Now()), value, fault))
    {
      ghost var f := Now();
      WriteNewPointer(value);
      ghost var swap := SwapTrace(f.current, f.previous, Some(Line(value)), fault);
      r := SwapIn(fault);
      assert trace == old(trace) + (StagingTrace(f, value) + swap);
      assert swap != [];
    }

    /** Puts the staged pointer in force, or takes it back after a fault. */
    method SwapIn(fault: Fault) returns (r: Result<(), PointerError>)
      requires next.Some?
      modifies this
      ensures r == if fault.NoFault? then Ok(()) else Err(IoFailed)
      ensures trace == old(trace) + SwapTrace(old(current), old(previous), old(next), fault)
      ensures Now() == Last(old(Now()), SwapTrace(old(current), old(previous), old(next), fault))
    {
      var hadCurrent := current.Some?;
      if hadCurrent {
        previous, current := current, None;
        Note();
      }
      if fault.RenameFault? {
        next := None;
        Note();
        PutBack(hadCurrent);
        return Err(IoFailed);
      }
      current, next := next, None;
      Note();
      if fault.SyncFault? {
        current := None;
        Note();
        PutBack(hadCurrent);
        return Err(IoFailed);
      }
      r := Ok(());
    }

    /** The previous pointer becomes the current one again. */
    method PutBack(hadCurrent: bool)
      modifies this
      ensures hadCurrent ==> Now() == Files(old(previous), old(next), None) && trace == old(trace) + [Now()]
      ensures !hadCurrent ==> Now() == old(Now()) && trace == old(trace)
    {
      if hadCurrent {
        current, previous := previous, None;
        Note();
      }
    }

    /** Removes the previous pointer's file if it is there. */
    method DropPrevious()
      modifies this
      ensures Now() == old(Now()).(previous := None)
      ensures trace == old(trace) + if old(previous).Some? then [Now()] else []
    {
      if previous.Some? {
        previous := None;
        Note();
      }
    }

    method DropNext()
      modifies this
      ensures Now() == old(Now()).(next := None)
      ensures trace == old(trace) + if old(next).Some? then [Now()] else []
    {
      if next.Some? {
        next := None;
        Note();
      }
    }

    method CommitRecovered()
      modifies this
      ensures trace == old(trace) + Trace(old(Now()), Operation.CommitRecovered)
      ensures Now() == Last(old(Now()), Trace(old(Now()), Operation.CommitRecovered))
    {
      ghost var before := Now();
      RecoverLocked();
      ghost var f := Now();
      DropPrevious();
      DropNext();
      assert trace == old(trace) + (RecoverTrace(before) + CommitTrace(f));
    }

    /** Removes the current pointer and puts the previous one back, if there is one. */
    method RestorePrevious()
      modifies this
      ensures trace == old(trace) + RollbackTrace(old(Now()))
      ensures Now() == Last(old(Now()), RollbackTrace(old(Now())))
    {
      ghost var f := Now();
      if current.Some? {
        current := None;
        Note();
      }
      if previous.Some? {
        current, previous := previous, None;
        Note();
      }
      DropNext();
      assert trace == old(trace) + RollbackTrace(f);
    }

    method RollbackRecoveredIfPrevious() returns (rolledBack: bool)
      modifies this
      ensures rolledBack <==> Recover(old(Now())).previous.Some?
      ensures trace == old(trace) + Trace(old(Now()), RollbackIfPrevious)
      ensures Now() == Last(old(Now()), Trace(old(Now()), RollbackIfPrevious))
    {
      ghost var before := Now();
      RecoverLocked();
      ghost var f := Now();
      if previous.None? {
        return false;
      }
      RestorePrevious();
      assert trace == old(trace) + (RecoverTrace(before) + RollbackTrace(f));
      rolledBack := true;
    }

    method Rollback()
      modifies this
      ensures trace == old(trace) + Trace(old(Now()), Operation.Rollback)
      ensures Now() == Last(old(Now()), Trace(old(Now()), Operation.Rollback))
    {
      ghost var before := Now();
      RecoverLocked();
      ghost var f := Now();
      RestorePrevious();
      assert trace == old(trace) + (RecoverTrace(before) + RollbackTrace(f));
    }
  }
}
