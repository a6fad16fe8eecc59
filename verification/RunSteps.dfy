/** The steps of a run at which calls do things: statements, inserts and commits, and what follows from them. */
module RunSteps {
  import opened Wrappers
  import opened Models
  import opened Transactions
  import opened Progress
  import opened LocalSteps

  ghost predicate InFlight(run: Run, k: int, c: CallId) {
    0 <= k < |run.states| && c in run.states[k].calls && !Finished(run.states[k].calls[c].pc)
  }

  /** Step j of the run is a statement of call c. */
  ghost predicate StatementOf(run: Run, j: int, c: CallId) {
    0 <= j < |run.actions| && run.actions[j].Statement? && run.actions[j].call == c && InFlight(run, j, c)
  }

  // ----- Commits

  /** The step at which a call commits; there is no other, and none after it. */
  ghost predicate CommitStep(run: Run, k: int, c: CallId) {
    StatementOf(run, k, c) && run.states[k].calls[c].pc.Committing?
  }

  lemma CommitEndsCall(run: Run, k: nat, c: CallId, i: nat)
    requires IsRun(run) && CommitStep(run, k, c) && k < i < |run.states|
    ensures c in run.states[i].calls
    ensures var call := run.states[k].calls[c];
            run.states[i].calls[c].pc == Done(Accepted(call.pc.bid, call.attempt, call.attempt - 1))
  {
    assert Follows(run, k);
    RunGrows(run, k + 1, i);
  }

  /** The log grows only by commit steps. */
  lemma {:induction false} LoggedCallCommitted(run: Run, i: nat, m: nat) returns (k: nat)
    requires IsRun(run) && i < |run.states| && m < |run.states[i].log|
    ensures k < i && CommitStep(run, k, run.states[i].log[m].call)
    ensures run.states[k].calls[run.states[i].log[m].call].pc.bid == run.states[i].log[m].bid
  {
    if i == 0 {
      assert false;
    } else {
      assert Follows(run, i - 1);
      RunGrows(run, i - 1, i);
      if m < |run.states[i - 1].log| {
        k := LoggedCallCommitted(run, i - 1, m);
      } else {
        k := i - 1;
        assert CommitStep(run, k, run.actions[k].call);
      }
    }
  }

  // ----- Inserts

  /** Step j is the insert of call c, drawing this identifier. */
  ghost predicate InsertIssued(run: Run, j: int, c: CallId, id: BidId) {
    StatementOf(run, j, c) && run.states[j].calls[c].pc.Inserting? && run.actions[j].id == id
  }

  /** The bid a call has inserted and not yet committed. */
  function Pending(pc: Pc): Option<Bid> {
    match pc
    case InsertWaiting(_, _, bid) => Some(bid)
    case Updating(_, _, bid) => Some(bid)
    case UpdateWaiting(_, _, bid, _) => Some(bid)
    case Committing(_, _, bid, _, _) => Some(bid)
    case _ => None
  }

  /** A pending bid is carried along, or inserted now with this identifier and the clock as its acceptance time. */
  predicate PendingFlow(before: Pc, view: View, id: BidId, after: Pc) {
    Pending(after).Some? ==>
      || Pending(after) == Pending(before)
      || (before.Inserting? && Pending(after).value.id == id && Pending(after).value.acceptedAt == view.clock)
  }

  lemma NextCarries(call: Call, view: View, id: BidId)
    ensures PendingFlow(call.pc, view, id, Next(call, view, id).pc)
  {
  }

  lemma StepCarries(s: State, c: CallId, id: BidId)
    requires Ready(s, c)
    ensures PendingFlow(s.calls[c].pc, Sees(s, c), id, Execute(s, c, id).calls[c].pc)
  {
    ExecuteIsNext(s, c, id);
    NextCarries(s.calls[c], Sees(s, c), id);
  }

  lemma {:induction false} PendingWasIssued(run: Run, i: nat, c: CallId) returns (j: nat)
    requires IsRun(run) && i < |run.states| && c in run.states[i].calls && Pending(run.states[i].calls[c].pc).Some?
    ensures j < i
    ensures var bid := Pending(run.states[i].calls[c].pc).value;
            InsertIssued(run, j, c, bid.id) && run.states[j].clock == bid.acceptedAt
  {
    if i == 0 {
      assert false;
    } else {
      assert Follows(run, i - 1);
      var s, action := run.states[i - 1], run.actions[i - 1];
      assert c in s.calls;
      if action.Statement? && action.call == c {
        StepCarries(s, c, action.id);
      }
      if Pending(s.calls[c].pc) == Pending(run.states[i].calls[c].pc) {
        j := PendingWasIssued(run, i - 1, c);
      } else {
        j := i - 1;
      }
    }
  }

  lemma {:induction false} DrawnStays(run: Run, i: nat, j: nat, id: BidId)
    requires IsRun(run) && i <= j < |run.states| && id in run.states[i].drawn
    ensures id in run.states[j].drawn
    decreases j
  {
    if i == j {
    } else {
      DrawnStays(run, i, j - 1, id);
      assert Follows(run, j - 1);
    }
  }

  /** No identifier is drawn twice. */
  lemma IssuedOnce(run: Run, i: nat, j: nat, c: CallId, d: CallId, id: BidId)
    requires IsRun(run) && InsertIssued(run, i, c, id) && InsertIssued(run, j, d, id)
    ensures i == j
  {
    assert Follows(run, i) && Follows(run, j);
    if i < j {
      DrawnStays(run, i + 1, j, id);
      assert false;
    } else if j < i {
      DrawnStays(run, j + 1, i, id);
      assert false;
    }
  }

  /** A committed bid carries the clock value at which its call's insert drew its identifier. */
  lemma CommitWasIssued(run: Run, i: nat, m: nat) returns (j: nat)
    requires IsRun(run) && i < |run.states| && m < |run.states[i].log|
    ensures var e := run.states[i].log[m];
            j < i && InsertIssued(run, j, e.call, e.bid.id) && run.states[j].clock == e.bid.acceptedAt
    ensures forall k | InsertIssued(run, k, run.states[i].log[m].call, run.states[i].log[m].bid.id) :: k == j
  {
    var e := run.states[i].log[m];
    var k := LoggedCallCommitted(run, i, m);
    j := PendingWasIssued(run, k, e.call);
    forall l | InsertIssued(run, l, e.call, e.bid.id) ensures l == j {
      IssuedOnce(run, l, j, e.call, e.call, e.bid.id);
    }
  }
}
