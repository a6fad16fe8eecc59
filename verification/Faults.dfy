/**
 What a fault of the database becomes: which error a call raises depends on its strategy, on the fault, and on whether
 it
 strikes inside the attempt or on the later connection that classifies a miss or resolves a unique violation.
 */
module Faults {
  import opened Wrappers
  import opened Models
  import opened Transactions
  import opened LocalSteps
  import opened Answers

  // ----- The two blocks of a call, told by what it did before

  /** The call has begun an attempt and has not gone to a later connection since. */
  ghost predicate InAttempt(run: Run, j: int, c: CallId) {
    exists b :: AttemptFrom(run, b, j, c)
  }

  ghost predicate AttemptFrom(run: Run, b: int, j: int, c: CallId) {
    && 0 <= b <= j < |run.states| && c in run.states[b].calls && run.states[b].calls[c].pc.Connecting?
    && forall k | b <= k <= j :: c in run.states[k].calls && !run.states[k].calls[c].pc.Reconnecting?
  }

  /** The call has gone to a later connection and has not begun another attempt since. */
  ghost predicate OnLaterConnection(run: Run, j: int, c: CallId) {
    exists b :: LaterFrom(run, b, j, c)
  }

  ghost predicate LaterFrom(run: Run, b: int, j: int, c: CallId) {
    && 0 <= b <= j < |run.states| && c in run.states[b].calls && run.states[b].calls[c].pc.Reconnecting?
    && forall k | b <= k <= j :: c in run.states[k].calls && !run.states[k].calls[c].pc.Connecting?
  }

  lemma NextBlock(call: Call, view: View, id: BidId)
    ensures MainBlock(Next(call, view, id).pc) ==> call.pc.Connecting? || MainBlock(call.pc)
    ensures SecondBlock(Next(call, view, id).pc) ==> call.pc.Reconnecting? || SecondBlock(call.pc)
  {
  }

  lemma BlocksExclude(run: Run, j: int, c: CallId)
    ensures !(InAttempt(run, j, c) && OnLaterConnection(run, j, c))
  {
  }

  lemma AttemptGoesOn(run: Run, j: nat, c: CallId)
    requires j > 0 && InAttempt(run, j - 1, c) && j < |run.states|
    requires c in run.states[j].calls && !run.states[j].calls[c].pc.Reconnecting?
    ensures InAttempt(run, j, c)
  {
    var b :| AttemptFrom(run, b, j - 1, c);
    assert AttemptFrom(run, b, j, c);
  }

  lemma LaterGoesOn(run: Run, j: nat, c: CallId)
    requires j > 0 && OnLaterConnection(run, j - 1, c) && j < |run.states|
    requires c in run.states[j].calls && !run.states[j].calls[c].pc.Connecting?
    ensures OnLaterConnection(run, j, c)
  {
    var b :| LaterFrom(run, b, j - 1, c);
    assert LaterFrom(run, b, j, c);
  }

  lemma BlockBefore(run: Run, k: nat, c: CallId)
    requires IsRun(run) && k < |run.actions| && c in run.states[k + 1].calls
    ensures var after := run.states[k + 1].calls[c].pc;
            MainBlock(after) || SecondBlock(after) ==>
              && c in run.states[k].calls
              && var before := run.states[k].calls[c].pc;
                 if MainBlock(after) then before.Connecting? || MainBlock(before)
                 else before.Reconnecting? || SecondBlock(before)
  {
    assert Follows(run, k);
    var s, action := run.states[k], run.actions[k];
    if action.Statement? && action.call == c {
      StepOfCall(run, k, c);
      NextBlock(s.calls[c], Sees(s, c), action.id);
    }
  }

  /** The program counter tells which of the two blocks the call is in. */
  lemma {:induction false} BlockOfCall(run: Run, j: nat, c: CallId)
    requires IsRun(run) && j < |run.states| && c in run.states[j].calls
    ensures var pc := run.states[j].calls[c].pc;
            && (pc.Connecting? || MainBlock(pc) ==> InAttempt(run, j, c))
            && (pc.Reconnecting? || SecondBlock(pc) ==> OnLaterConnection(run, j, c))
  {
    var pc := run.states[j].calls[c].pc;
    if pc.Connecting? {
      assert AttemptFrom(run, j, j, c);
    } else if pc.Reconnecting? {
      assert LaterFrom(run, j, j, c);
    } else if j == 0 {
      assert false;
    } else if MainBlock(pc) {
      BlockBefore(run, j - 1, c);
      BlockOfCall(run, j - 1, c);
      AttemptGoesOn(run, j, c);
    } else if SecondBlock(pc) {
      BlockBefore(run, j - 1, c);
      BlockOfCall(run, j - 1, c);
      LaterGoesOn(run, j, c);
    }
  }

  // ----- Errors

  /**
   The fault that strikes call c in state j gives this error. Inside the attempt a pessimistic call maps expired lock
   waits
   and cancelled statements, an optimistic one cancelled statements only, an unsafe one nothing; on a later connection
   nothing is mapped. What is not mapped is the database's own error.
   */
  ghost predicate FaultGives(run: Run, j: int, c: CallId, fault: Fault, error: Error) {
    && 0 <= j < |run.states| && c in run.states[j].calls
    && (InAttempt(run, j, c) <==> !OnLaterConnection(run, j, c))
    && var strategy := run.states[j].calls[c].strategy;
       && (error == StrategyBusy <==>
             && InAttempt(run, j, c)
             && ((strategy == Pessimistic && (fault == LockNotAvailable || fault == QueryCanceled))
                 || (strategy.Optimistic? && fault == QueryCanceled)))
       && (error != StrategyBusy ==> error == DatabaseError(fault))
  }

  /** Every fault that strikes a call makes it fail with the error that its strategy and its block call for. */
  lemma FaultsAreMapped(run: Run, j: nat, c: CallId, fault: Fault)
    requires IsRun(run) && j < |run.actions| && run.actions[j] == Abort(c, fault)
    ensures j + 1 < |run.states| && c in run.states[j + 1].calls && Failure(run.states[j + 1].calls[c].pc).Some?
    ensures FaultGives(run, j, c, fault, Failure(run.states[j + 1].calls[c].pc).value)
  {
    assert Follows(run, j);
    BlockOfCall(run, j, c);
    BlocksExclude(run, j, c);
  }

  /** The call was struck by a fault before state i, and this is the error it gives. */
  ghost predicate EndedByFault(run: Run, i: int, c: CallId, error: Error) {
    exists j, fault :: StruckAt(run, j, i, c, fault, error)
  }

  ghost predicate StruckAt(run: Run, j: int, i: int, c: CallId, fault: Fault, error: Error) {
    0 <= j < i && j < |run.actions| && run.actions[j] == Abort(c, fault) && FaultGives(run, j, c, fault, error)
  }

  /** Why a call fails: the rules left no room for any bid, or a fault struck it. */
  ghost predicate FailureExplained(run: Run, i: int, c: CallId, error: Error) {
    (error == MoneyOverflow && MetNoRoom(run, i, c)) || EndedByFault(run, i, c, error)
  }

  lemma NewFailureIsFault(run: Run, k: nat, c: CallId, error: Error)
    requires IsRun(run) && k < |run.actions| && c in run.states[k].calls && c in run.states[k + 1].calls
    requires error != MoneyOverflow && Failure(run.states[k].calls[c].pc) != Some(error)
    requires Failure(run.states[k + 1].calls[c].pc) == Some(error)
    ensures EndedByFault(run, k + 1, c, error)
  {
    assert Follows(run, k);
    var action := run.actions[k];
    if action.Statement? && action.call == c {
      StatementFails(run, k, c);
      assert false;
    } else {
      FaultsAreMapped(run, k, c, action.fault);
      assert StruckAt(run, k, k + 1, c, action.fault, error);
    }
  }

  lemma {:induction false} FaultWasMapped(run: Run, i: nat, c: CallId, error: Error)
    requires IsRun(run) && i < |run.states| && c in run.states[i].calls && error != MoneyOverflow
    requires Failure(run.states[i].calls[c].pc) == Some(error)
    ensures EndedByFault(run, i, c, error)
  {
    if i == 0 {
      assert false;
    } else {
      assert Follows(run, i - 1);
      assert c in run.states[i - 1].calls;
      if Failure(run.states[i - 1].calls[c].pc) == Some(error) {
        FaultWasMapped(run, i - 1, c, error);
        var j, fault :| StruckAt(run, j, i - 1, c, fault, error);
        assert StruckAt(run, j, i, c, fault, error);
      } else {
        NewFailureIsFault(run, i - 1, c, error);
      }
    }
  }

  /** In any run of any mix of strategies every failure of a call is explained; there is no other way to raise. */
  lemma FailuresAreExplained(run: Run, i: nat, c: CallId)
    requires IsRun(run) && i < |run.states| && c in run.states[i].calls && Failure(run.states[i].calls[c].pc).Some?
    ensures FailureExplained(run, i, c, Failure(run.states[i].calls[c].pc).value)
  {
    var error := Failure(run.states[i].calls[c].pc).value;
    if error == MoneyOverflow {
      OverflowMeansNoRoom(run, i, c);
    } else {
      FaultWasMapped(run, i, c, error);
    }
  }
}
