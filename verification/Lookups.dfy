/**
 When a call is answered from a bid that is already committed: exactly when the last time it looked for its request id
 it found one. A duplicate that is judged on its own merits made its last look before the original was committed.
 */
module Lookups {
  import opened Wrappers
  import opened Models
  import opened Transactions
  import opened BaseInvariant
  import opened Preservation
  import opened Progress
  import opened LocalSteps

  /** Replayed, or told that the request id was reused. */
  predicate IsReply(o: Outcome) {
    o.Replayed? || (o.Rejected? && o.reason.RequestIdReused?)
  }

  /** What the program counter tells of the last look: whether it found a bid; None if another look is to come. */
  function Found(pc: Pc): Option<bool> {
    match pc
    case Closing(Return(o)) => Some(IsReply(o))
    case Done(o) => Some(IsReply(o))
    case _ =>
      if pc.Reading? || pc.Rereading? || (HeldRow(pc).Some? && !pc.Rechecking?) then Some(false) else None
  }

  function Answer(pc: Pc): Option<Outcome> {
    match pc
    case Closing(Return(o)) => Some(o)
    case Done(o) => Some(o)
    case _ => None
  }

  /** The answer is the reply that a look finding this bid gives, up to its counts. */
  predicate RepliesWith(answer: Option<Outcome>, command: Command, existing: Option<Bid>) {
    answer.Some? && IsReply(answer.value) ==>
      && existing.Some?
      && answer.value == ReplayOrReject(existing.value, command, answer.value.attempts, answer.value.conflicts)
  }

  predicate SaysNotFound(answer: Option<Outcome>) {
    answer.Some? && answer.value.Rejected? && answer.value.reason.AuctionNotFound?
  }

  /** A look decides what the next program counter tells; any other statement passes it on. */
  predicate FoundFlow(call: Call, view: View, after: Pc) {
    && (SaysNotFound(Answer(after)) ==>
          Answer(after) == Answer(call.pc) || (view.row.None? && Answer(after).value.minimum.None?))
    && (Found(after).Some? ==>
          if LooksUp(call.pc) then
            Found(after) == Some(view.existing.Some?) && RepliesWith(Answer(after), call.command, view.existing)
          else
            && Found(after) == Found(call.pc)
            && (Answer(after).Some? && IsReply(Answer(after).value) ==> Answer(after) == Answer(call.pc)))
  }

  lemma NextFinds(call: Call, view: View, id: BidId)
    ensures FoundFlow(call, view, Next(call, view, id).pc)
  {
  }

  lemma StepFinds(s: State, c: CallId, id: BidId)
    requires Ready(s, c)
    ensures FoundFlow(s.calls[c], Sees(s, c), Execute(s, c, id).calls[c].pc)
  {
    ExecuteIsNext(s, c, id);
    NextFinds(s.calls[c], Sees(s, c), id);
  }

  // ----- Looks of a run

  /** Step j of the run is a look of call c for its request id. */
  ghost predicate LookAt(run: Run, j: int, c: CallId) {
    && 0 <= j < |run.actions| && j < |run.states|
    && run.actions[j].Statement? && run.actions[j].call == c
    && c in run.states[j].calls && LooksUp(run.states[j].calls[c].pc)
  }

  /** Step j is the last look of call c before state i. */
  ghost predicate LastLook(run: Run, j: int, i: int, c: CallId) {
    j < i && LookAt(run, j, c) && forall k | j < k < i :: !LookAt(run, k, c)
  }

  /** The committed bid that a look at step j finds. */
  function Seen(run: Run, j: int, command: Command): Option<Bid>
    requires 0 <= j < |run.states|
  {
    ExistingBid(run.states[j].log, command.request)
  }

  ghost predicate Tells(run: Run, j: int, i: int, c: CallId)
    requires 0 <= i < |run.states| && c in run.states[i].calls
  {
    && LastLook(run, j, i, c)
    && var call := run.states[i].calls[c];
       && Found(call.pc) == Some(Seen(run, j, call.command).Some?)
       && RepliesWith(Answer(call.pc), call.command, Seen(run, j, call.command))
  }

  lemma {:induction false} LastLookTells(run: Run, i: nat, c: CallId) returns (j: nat)
    requires IsRun(run) && i < |run.states| && c in run.states[i].calls && Found(run.states[i].calls[c].pc).Some?
    ensures j < i && Tells(run, j, i, c)
  {
    if i == 0 {
      assert false;
    } else {
      assert Follows(run, i - 1);
      var s, action := run.states[i - 1], run.actions[i - 1];
      assert c in s.calls;
      RunGrows(run, i - 1, i);
      if action.Statement? && action.call == c {
        StepFinds(s, c, action.id);
      }
      if LookAt(run, i - 1, c) {
        j := i - 1;
      } else {
        j := LastLookTells(run, i - 1, c);
        assert LastLook(run, j, i, c);
      }
    }
  }

  /**
   In any run, under any strategy, a completed call was replayed or told that its request id was reused if and only if
   its last look found a committed bid with that id, and then the answer is the one that bid calls for.
   */
  lemma RepliesAreWhatLastLooksFound(run: Run, i: nat, c: CallId) returns (j: nat)
    requires IsRun(run) && i < |run.states|
    requires c in run.states[i].calls && run.states[i].calls[c].pc.Done?
    ensures LastLook(run, j, i, c)
    ensures var command, o := run.states[i].calls[c].command, run.states[i].calls[c].pc.outcome;
            && (IsReply(o) <==> Seen(run, j, command).Some?)
            && (IsReply(o) ==> o == ReplayOrReject(Seen(run, j, command).value, command, o.attempts, o.conflicts))
  {
    j := LastLookTells(run, i, c);
  }

  /**
   A completed call that was not answered from a bid with its request id last looked before that bid was committed.
   */
  lemma MisjudgedDuplicatesLookedEarly(run: Run, i: nat, c: CallId, k: nat) returns (j: nat)
    requires IsRun(run) && i < |run.states|
    requires c in run.states[i].calls && run.states[i].calls[c].pc.Done? && !IsReply(run.states[i].calls[c].pc.outcome)
    requires k < |run.states[i].log| && run.states[i].log[k].bid.request == run.states[i].calls[c].command.request
    ensures LastLook(run, j, i, c) && |run.states[j].log| <= k
  {
    j := RepliesAreWhatLastLooksFound(run, i, c);
    RunGrows(run, j, i);
    FindCommitFinds(run.states[j].log, run.states[i].calls[c].command.request);
  }

  /** Under every strategy an auction is reported as not found only if it is not in the catalog. */
  lemma {:induction false} NotFoundIsUnknown(run: Run, i: nat, c: CallId)
    requires IsRun(run) && i < |run.states| && c in run.states[i].calls
    requires SaysNotFound(Answer(run.states[i].calls[c].pc))
    ensures run.states[i].calls[c].command.auction !in run.states[i].catalog
    ensures Answer(run.states[i].calls[c].pc).value.minimum.None?
  {
    if i == 0 {
      assert false;
    } else {
      assert Follows(run, i - 1);
      var s, action := run.states[i - 1], run.actions[i - 1];
      assert c in s.calls;
      RunGrows(run, i - 1, i);
      RunKeepsInv(run, i - 1);
      if action.Statement? && action.call == c {
        StepFinds(s, c, action.id);
      }
      if Answer(run.states[i].calls[c].pc) == Answer(s.calls[c].pc) {
        NotFoundIsUnknown(run, i - 1, c);
      }
    }
  }
}
