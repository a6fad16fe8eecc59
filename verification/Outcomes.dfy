/**
 What outcomes say, in runs of any mix of strategies: attempts and conflicts, replays, request ids, and the
 correspondence between accepted outcomes and committed bids.
 */
module Outcomes {
  import opened Wrappers
  import opened Models
  import opened Transactions
  import opened BaseInvariant
  import opened Preservation
  import opened Progress
  import opened LocalSteps

  // ----- Attempts and conflicts

  ghost predicate OutcomeCounts(call: Call, o: Outcome) {
    && ValidOutcome(o)
    && o.conflicts <= o.attempts <= call.attempt
    && (o.Accepted? ==> o.attempts == call.attempt && o.conflicts == o.attempts - 1 == |call.misses|)
    && (o.Rejected? && o.reason.ConflictRetryExhausted? ==>
          call.strategy.Optimistic? && o.attempts == o.conflicts == |call.misses| == call.strategy.maxAttempts)
  }

  /** How the attempt counter relates to the updates missed so far, at every program counter. */
  ghost predicate CountsOk(call: Call) {
    && (call.strategy.Optimistic? ==> 1 <= call.attempt <= call.strategy.maxAttempts)
    && (!call.strategy.Optimistic? ==> call.attempt == 1 && call.misses == [])
    && match call.pc
       case UpdateWaiting(_, _, _, _) => call.strategy.Optimistic? && |call.misses| == call.attempt - 1
       case Closing(Return(o)) => OutcomeCounts(call, o)
       case Closing(Missed(_)) => call.strategy.Optimistic? && |call.misses| == call.attempt - 1
       case Closing(Retry) => call.strategy.Optimistic? && |call.misses| == call.attempt < call.strategy.maxAttempts
       case Closing(Fail(_)) => true
       case Reconnecting(Classify) => call.strategy.Optimistic? && |call.misses| == call.attempt
       case Relooking(Classify) => call.strategy.Optimistic? && |call.misses| == call.attempt
       case Rereading => call.strategy.Optimistic? && |call.misses| == call.attempt
       case Retiming(_) => call.strategy.Optimistic? && |call.misses| == call.attempt
       case Done(o) => OutcomeCounts(call, o)
       case Raised(_) => true
       case _ => |call.misses| == call.attempt - 1
  }

  // ----- Request ids

  /**
   The outcome reports a committed bid faithfully: its own payload if replayed, another's if the id was reused. Only a
   rejection by the rules quotes a minimum, and it always does.
   */
  ghost predicate OutcomeKnown(log: seq<Commit>, command: Command, o: Outcome) {
    && (o.Replayed? ==>
          && ExistingBid(log, command.request) == Some(o.bid)
          && o.bid == TentativeBid(command, o.bid.id, o.bid.version, o.bid.acceptedAt))
    && (o.Rejected? && o.reason.RequestIdReused? ==>
          && ExistingBid(log, command.request).Some?
          && var b := ExistingBid(log, command.request).value;
             b.auction != command.auction || b.bidder != Strip(command.bidder) || b.amount != command.amount)
    && (o.Rejected? ==> (o.minimum.Some? <==> RuleReason(o.reason)))
  }

  /** A call resolving a unique violation has a committed bid to find. */
  ghost predicate KnownOk(log: seq<Commit>, call: Call) {
    match call.pc
    case Closing(Return(o)) => OutcomeKnown(log, call.command, o)
    case Done(o) => OutcomeKnown(log, call.command, o)
    case Closing(Duplicate) => ExistingBid(log, call.command.request).Some?
    case Reconnecting(Resolve) => ExistingBid(log, call.command.request).Some?
    case Relooking(Resolve) => ExistingBid(log, call.command.request).Some?
    case Closing(Fail(e)) => e != UnresolvedDuplicate
    case Raised(e) => e != UnresolvedDuplicate
    case _ => true
  }

  // ----- Accepted outcomes

  /** An accepted outcome has its bid in the log, committed by this very call. */
  ghost predicate AcceptedIsCommitted(log: seq<Commit>, c: CallId, call: Call) {
    && (call.pc.Closing? && call.pc.exit.Return? ==> !call.pc.exit.outcome.Accepted?)
    && (call.pc.Done? && call.pc.outcome.Accepted? ==>
          exists k :: 0 <= k < |log| && log[k].call == c && log[k].bid == call.pc.outcome.bid)
  }

  ghost predicate CallOutcome(log: seq<Commit>, c: CallId, call: Call) {
    CountsOk(call) && KnownOk(log, call) && AcceptedIsCommitted(log, c, call)
  }

  ghost predicate OutcomeInv(s: State) {
    forall c | c in s.calls :: CallOutcome(s.log, c, s.calls[c])
  }

  // ----- Preservation

  lemma ReplayIsKnown(log: seq<Commit>, command: Command, attempts: int, conflicts: int)
    requires ExistingBid(log, command.request).Some?
    ensures var existing := ExistingBid(log, command.request).value;
            OutcomeKnown(log, command, ReplayOrReject(existing, command, attempts, conflicts))
  {
    FindCommitFinds(log, command.request);
  }

  /** Closing with a replay keeps everything said about outcomes. */
  lemma ReplayCloses(log: seq<Commit>, c: CallId, call: Call, attempts: int, conflicts: int)
    requires call.strategy.Optimistic? ==> 1 <= call.attempt <= call.strategy.maxAttempts
    requires !call.strategy.Optimistic? ==> call.attempt == 1 && call.misses == []
    requires ExistingBid(log, call.command.request).Some? && 0 <= conflicts <= attempts && 1 <= attempts <= call.attempt
    ensures var existing := ExistingBid(log, call.command.request).value;
            CallOutcome(log, c, call.(pc := Closing(Return(ReplayOrReject(existing, call.command, attempts,
                conflicts)))))
  {
    ReplayIsKnown(log, call.command, attempts, conflicts);
  }

  lemma DecisionCloses(log: seq<Commit>, c: CallId, call: Call, row: Auction, now: Instant)
    requires CountsOk(call.(pc := Lookup))
    ensures CallOutcome(log, c, call.(pc := Decide(call, row, now)))
  {
  }

  /** A look keeps everything said about outcomes, if it finds what the log has. */
  lemma NextLookOutcome(log: seq<Commit>, c: CallId, call: Call, view: View, id: BidId)
    requires CallOutcome(log, c, call) && view.existing == ExistingBid(log, call.command.request)
    requires LooksUp(call.pc)
    ensures CallOutcome(log, c, Next(call, view, id))
  {
    if view.existing.Some? {
      if call.pc.Relooking? {
        ReplayCloses(log, c, call, 1, 0);
      } else {
        ReplayCloses(log, c, call, call.attempt, call.attempt - 1);
      }
    } else if call.pc.Rechecking? {
      DecisionCloses(log, c, call, call.pc.row, call.pc.now);
    }
  }

  lemma NextCloseOutcome(log: seq<Commit>, c: CallId, call: Call)
    requires CallOutcome(log, c, call) && call.pc.Closing?
    ensures CallOutcome(log, c, AfterClose(call))
  {
  }

  /** So does any other statement that commits nothing. */
  lemma NextOutcome(log: seq<Commit>, c: CallId, call: Call, view: View, id: BidId)
    requires CallOutcome(log, c, call) && view.existing == ExistingBid(log, call.command.request)
    requires !call.pc.Committing?
    ensures CallOutcome(log, c, Next(call, view, id))
  {
    if LooksUp(call.pc) {
      NextLookOutcome(log, c, call, view, id);
    } else if call.pc.Timing? {
      DecisionCloses(log, c, call, call.pc.row, view.clock);
    } else if call.pc.Closing? {
      NextCloseOutcome(log, c, call);
    }
  }

  lemma CommitBidOutcome(s: State, c: CallId)
    requires Ready(s, c) && s.calls[c].pc.Committing? && CallOutcome(s.log, c, s.calls[c])
    ensures CallOutcome(CommitBid(s, c).log, c, CommitBid(s, c).calls[c])
  {
    assert CommitBid(s, c).log[|s.log|].call == c;
  }

  lemma StatementOutcome(s: State, c: CallId, id: BidId)
    requires Ready(s, c) && CallOutcome(s.log, c, s.calls[c])
    ensures CallOutcome(Execute(s, c, id).log, c, Execute(s, c, id).calls[c])
  {
    if s.calls[c].pc.Committing? {
      CommitBidOutcome(s, c);
    } else {
      ExecuteIsNext(s, c, id);
      NextOutcome(s.log, c, s.calls[c], Sees(s, c), id);
    }
  }

  /** What is known of another call survives a commit: request ids are never committed twice. */
  lemma CommitKeepsOutcome(s: State, c: CallId, d: CallId)
    requires Inv(s) && c in s.calls && s.calls[c].pc.Committing? && d in s.calls && d != c
    requires CallOutcome(s.log, d, s.calls[d])
    ensures CallOutcome(CommitBid(s, c).log, d, s.calls[d])
  {
    var e := CommitBid(s, c).log[|s.log|];
    assert CallOk(s.catalog, s.log, s.clock, s.drawn, c, s.calls[c]);
    FindOfAppend(s.log, e, s.calls[d].command.request);
    if s.calls[d].pc.Done? && s.calls[d].pc.outcome.Accepted? {
      var k :| 0 <= k < |s.log| && s.log[k].call == d && s.log[k].bid == s.calls[d].pc.outcome.bid;
      assert CommitBid(s, c).log[k] == s.log[k];
    }
  }

  lemma StepKeepsOutcomes(s: State, action: Action)
    requires Inv(s) && OutcomeInv(s) && Enabled(s, action)
    ensures OutcomeInv(Perform(s, action))
  {
    var t := Perform(s, action);
    forall d | d in t.calls ensures CallOutcome(t.log, d, t.calls[d]) {
      if action.Statement? {
        if d == action.call {
          StatementOutcome(s, d, action.id);
        } else if s.calls[action.call].pc.Committing? {
          CommitKeepsOutcome(s, action.call, d);
        }
      }
    }
  }

  lemma {:induction false} RunKeepsOutcomes(run: Run, i: nat)
    requires IsRun(run) && i < |run.states|
    ensures Inv(run.states[i]) && OutcomeInv(run.states[i])
  {
    RunKeepsInv(run, i);
    if i == 0 {
    } else {
      RunKeepsOutcomes(run, i - 1);
      assert Follows(run, i - 1);
      StepKeepsOutcomes(run.states[i - 1], run.actions[i - 1]);
    }
  }

  // ----- Main results

  /** The n-th commit of the log is the unique one with its request id, its bid id and its call. */
  lemma CommitsAreDistinct(s: State, i: nat, j: nat)
    requires Inv(s) && i < j < |s.log|
    ensures s.log[i].bid.request != s.log[j].bid.request
    ensures s.log[i].bid.id != s.log[j].bid.id
    ensures s.log[i].call != s.log[j].call
  {
    assert EntryOk(s, i) && EntryOk(s, j);
  }

  /**
   In any run, accepted outcomes and committed bids correspond one to one: every committed bid is the outcome of the
   one call that committed it, every accepted outcome is committed exactly once, and no two commits share a call, a
   bid id or a request id, across all auctions.
   */
  lemma AcceptedOutcomesAreTheCommits(run: Run, i: nat)
    requires IsRun(run) && i < |run.states|
    ensures var s := run.states[i];
            && (forall k | 0 <= k < |s.log| ::
                  s.log[k].call in s.calls
                  && var pc := s.calls[s.log[k].call].pc;
                     pc.Done? && pc.outcome.Accepted? && pc.outcome.bid == s.log[k].bid)
            && (forall c | c in s.calls && s.calls[c].pc.Done? && s.calls[c].pc.outcome.Accepted? ::
                  exists k :: 0 <= k < |s.log| && s.log[k].call == c && s.log[k].bid == s.calls[c].pc.outcome.bid)
            && (forall k, m | 0 <= k < m < |s.log| ::
                  && s.log[k].call != s.log[m].call
                  && s.log[k].bid.id != s.log[m].bid.id
                  && s.log[k].bid.request != s.log[m].bid.request)
  {
    var s := run.states[i];
    RunKeepsOutcomes(run, i);
    forall k | 0 <= k < |s.log|
      ensures s.log[k].call in s.calls
              && var pc := s.calls[s.log[k].call].pc;
                 pc.Done? && pc.outcome.Accepted? && pc.outcome.bid == s.log[k].bid
    {
      assert EntryOk(s, k);
    }
    forall c | c in s.calls && s.calls[c].pc.Done? && s.calls[c].pc.outcome.Accepted?
      ensures exists k :: 0 <= k < |s.log| && s.log[k].call == c && s.log[k].bid == s.calls[c].pc.outcome.bid
    {
      assert CallOutcome(s.log, c, s.calls[c]);
    }
    forall k, m | 0 <= k < m < |s.log|
      ensures s.log[k].call != s.log[m].call && s.log[k].bid.id != s.log[m].bid.id
      ensures s.log[k].bid.request != s.log[m].bid.request
    {
      CommitsAreDistinct(s, k, m);
    }
  }

  /**
   Every outcome counts conflicts within attempts within the strategy's limit; an accepted optimistic outcome counts
   exactly the updates it missed and rolled back; exhaustion counts the whole limit.
   */
  lemma OutcomesCountAttempts(run: Run, i: nat, c: CallId)
    requires IsRun(run) && i < |run.states|
    requires c in run.states[i].calls && run.states[i].calls[c].pc.Done?
    ensures var call := run.states[i].calls[c]; var o := call.pc.outcome;
            && 0 <= o.conflicts <= o.attempts && 0 < o.attempts
            && o.attempts <= (if call.strategy.Optimistic? then call.strategy.maxAttempts else 1)
            && (o.Accepted? ==> o.conflicts == o.attempts - 1 == |call.misses|)
            && (o.Rejected? && o.reason.ConflictRetryExhausted? ==>
                  call.strategy.Optimistic? && o.attempts == o.conflicts == |call.misses| == call.strategy.maxAttempts)
  {
    RunKeepsOutcomes(run, i);
    assert CallOutcome(run.states[i].log, c, run.states[i].calls[c]);
  }

  /**
   A replayed outcome carries the one committed bid with its request id, and that bid has the call's own payload; a
   call is
   told that its request id was reused only if a committed bid has that id and another payload. A rejection quotes a
   minimum if and only if its reason is that the auction has not started, is closed, or that the bid is too low.
   */
  lemma RepliesAreFaithful(run: Run, i: nat, c: CallId)
    requires IsRun(run) && i < |run.states|
    requires c in run.states[i].calls && run.states[i].calls[c].pc.Done?
    ensures var s := run.states[i]; var command := s.calls[c].command; var o := s.calls[c].pc.outcome;
            && (o.Replayed? ==>
                  && o.bid.auction == command.auction && o.bid.bidder == Strip(command.bidder)
                  && o.bid.amount == command.amount
                  && exists k :: 0 <= k < |s.log| && s.log[k].bid == o.bid && o.bid.request == command.request)
            && (o.Rejected? && o.reason.RequestIdReused? ==>
                  exists k :: 0 <= k < |s.log| && s.log[k].bid.request == command.request
                    && (s.log[k].bid.auction, s.log[k].bid.bidder, s.log[k].bid.amount)
                       != (command.auction, Strip(command.bidder), command.amount))
            && (o.Rejected? ==>
                  (o.minimum.Some? <==> o.reason in {AuctionNotStarted, AuctionClosed, BidTooLow}))
  {
    var s := run.states[i];
    RunKeepsOutcomes(run, i);
    assert CallOutcome(s.log, c, s.calls[c]);
    FindCommitFinds(s.log, s.calls[c].command.request);
  }

  /** An accepted outcome carries the call's own payload, under an identifier that this call drew. */
  lemma AcceptancesAreFaithful(run: Run, i: nat, c: CallId)
    requires IsRun(run) && i < |run.states|
    requires c in run.states[i].calls && run.states[i].calls[c].pc.Done?
    ensures var s := run.states[i]; var command := s.calls[c].command; var o := s.calls[c].pc.outcome;
            o.Accepted? ==>
              && o.bid.request == command.request && o.bid.auction == command.auction
              && o.bid.bidder == Strip(command.bidder) && o.bid.amount == command.amount
              && o.bid.id in s.drawn && s.drawn[o.bid.id] == c
              && exists k :: 0 <= k < |s.log| && s.log[k].bid == o.bid && s.log[k].call == c
                   && o.bid.version == s.log[k].read.version + 1
  {
    var s := run.states[i];
    RunKeepsOutcomes(run, i);
    assert CallOutcome(s.log, c, s.calls[c]);
    if s.calls[c].pc.outcome.Accepted? {
      var k :| 0 <= k < |s.log| && s.log[k].call == c && s.log[k].bid == s.calls[c].pc.outcome.bid;
      assert EntryOk(s, k);
    }
  }

  /** A unique violation always resolves to a committed bid, so the unresolved-duplicate error is never raised. */
  lemma DuplicatesAlwaysResolve(run: Run, i: nat, c: CallId)
    requires IsRun(run) && i < |run.states| && c in run.states[i].calls
    ensures run.states[i].calls[c].pc != Raised(UnresolvedDuplicate)
    ensures run.states[i].calls[c].pc != Closing(Fail(UnresolvedDuplicate))
    ensures run.states[i].calls[c].pc == Relooking(Resolve) ==>
              ExistingBid(run.states[i].log, run.states[i].calls[c].command.request).Some?
  {
    RunKeepsOutcomes(run, i);
    assert CallOutcome(run.states[i].log, c, run.states[i].calls[c]);
  }

  /** The program counters of a call whose request id was committed before the call began. */
  ghost predicate AnswersFrom(call: Call, existing: Bid) {
    var answer := ReplayOrReject(existing, call.command, 1, 0);
    && call.attempt == 1
    && match call.pc
       case Connecting => true
       case Lookup => true
       case Closing(Return(o)) => o == answer
       case Closing(Fail(e)) => FromOutside(e)
       case Done(o) => o == answer
       case Raised(e) => FromOutside(e)
       case _ => false
  }

  /** An error that a fault of the database makes, not the bid. */
  predicate FromOutside(e: Error) {
    e.StrategyBusy? || e.DatabaseError?
  }

  lemma StepKeepsAnswer(s: State, action: Action, c: CallId, existing: Bid)
    requires Enabled(s, action) && c in s.calls
    requires AnswersFrom(s.calls[c], existing) && ExistingBid(s.log, s.calls[c].command.request) == Some(existing)
    ensures AnswersFrom(Perform(s, action).calls[c], existing)
  {
    if action.Statement? && action.call == c {
      ExecuteIsNext(s, c, action.id);
    }
  }

  /** A committed request id stays bound to its bid. */
  lemma ExistingBidStays(run: Run, i: nat, j: nat, r: RequestId)
    requires IsRun(run) && i <= j < |run.states|
    requires ExistingBid(run.states[i].log, r).Some?
    ensures ExistingBid(run.states[j].log, r) == ExistingBid(run.states[i].log, r)
  {
    RunGrows(run, i, j);
    RunKeepsInv(run, j);
    FindCommitFinds(run.states[i].log, r);
    FindCommitFinds(run.states[j].log, r);
  }

  /**
   A call begun after its request id was committed, under any strategy, touches nothing and can only return that bid as
   replayed, report the id as reused when the stripped payload differs, or be ended by a fault of the database.
   */
  lemma {:induction false} LaterCallsReplay(run: Run, i: nat, j: nat, c: CallId)
    requires IsRun(run) && i <= j < |run.states|
    requires c !in run.states[i].calls && c in run.states[j].calls
    requires ExistingBid(run.states[i].log, run.states[j].calls[c].command.request).Some?
    ensures var call := run.states[j].calls[c];
            AnswersFrom(call, ExistingBid(run.states[i].log, call.command.request).value)
    decreases j
  {
    var s, t := run.states[j - 1], run.states[j];
    assert Follows(run, j - 1);
    var existing := ExistingBid(run.states[i].log, t.calls[c].command.request);
    if c !in s.calls {
    } else {
      RunGrows(run, j - 1, j);
      LaterCallsReplay(run, i, j - 1, c);
      ExistingBidStays(run, i, j - 1, t.calls[c].command.request);
      StepKeepsAnswer(s, run.actions[j - 1], c, existing.value);
    }
  }
}
