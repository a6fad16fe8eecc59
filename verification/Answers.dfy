/**
 Where every answer and every raise of a call comes from: the step at which it was decided, what was compared there, and
 with which counts it is reported. In any run of any mix of strategies.
 */
module Answers {
  import opened Wrappers
  import opened Models
  import opened Rules
  import opened Transactions
  import opened BaseInvariant
  import opened Preservation
  import opened Progress
  import opened SafeRefinement
  import opened LocalSteps
  import opened RunSteps
  import opened Outcomes
  import opened Lookups
  import opened Rejections
  import opened Retries

  // ----- Decisions in plain comparisons

  /**
   What the rules make of a call, in comparisons of prices and times: overflow first, whatever the time, then the
   window,
   then the price; a rejection carries the attempt, these conflicts and the price called for, and an acceptable bid
   goes on.
   */
  ghost predicate FollowsTheRules(call: Call, row: Auction, now: Instant, conflicts: int, acceptable: Pc, after: Pc) {
    var amount := call.command.amount;
    var required := if row.currentPrice == None then row.startingPrice else row.currentPrice.value + row.increment;
    if !(1 <= amount <= 9_000_000_000_000_000) || (row.currentPrice != None && required > 9_000_000_000_000_000) then
      after == Closing(Fail(MoneyOverflow))
    else if now < row.startsAt then
      after == Closing(Return(Rejected(AuctionNotStarted, Some(required), call.attempt, conflicts)))
    else if row.endsAt <= now then
      after == Closing(Return(Rejected(AuctionClosed, Some(required), call.attempt, conflicts)))
    else if amount < required then
      after == Closing(Return(Rejected(BidTooLow, Some(required), call.attempt, conflicts)))
    else
      after == acceptable
  }

  lemma DecideFollowsTheRules(call: Call, row: Auction, now: Instant)
    ensures FollowsTheRules(call, row, now, 0, Inserting(row, now), Decide(call, row, now))
  {
  }

  /** After a miss an acceptable bid is tried again below the limit, and given up at it. */
  lemma DecideAfterMissFollowsTheRules(call: Call, row: Auction, now: Instant)
    ensures var again := call.strategy.Optimistic? && call.attempt < call.strategy.maxAttempts;
            FollowsTheRules(call, row, now, call.attempt,
                            if again then Closing(Retry)
                            else Closing(Return(Rejected(ConflictRetryExhausted, None, call.attempt, call.attempt))),
                            DecideAfterMiss(call, row, now))
  {
  }

  /** The conditions of the guarded update on the row it finds, in plain comparisons. */
  ghost predicate GuardHolds(row: Auction, version: int, amount: int, now: Instant) {
    && row.version == version && row.startsAt <= now < row.endsAt
    && amount >= (if row.currentPrice == None then row.startingPrice else row.currentPrice.value + row.increment)
  }

  /** The call and its program counter after step j. */
  function PcAfter(run: Run, j: int, c: CallId): Pc
    requires 0 <= j && j + 1 < |run.states| && c in run.states[j + 1].calls
  {
    run.states[j + 1].calls[c].pc
  }

  /** A step j of call c and what follows it. */
  lemma StepOfCall(run: Run, j: nat, c: CallId)
    requires IsRun(run) && StatementOf(run, j, c)
    ensures j + 1 < |run.states| && c in run.states[j + 1].calls && Ready(run.states[j], c)
    ensures run.states[j + 1] == Execute(run.states[j], c, run.actions[j].id)
    ensures run.states[j + 1].calls[c] == Next(run.states[j].calls[c], Sees(run.states[j], c), run.actions[j].id)
  {
    assert Follows(run, j);
    ExecuteIsNext(run.states[j], c, run.actions[j].id);
  }

  /**
   Every evaluation of a run decides as the rules say in plain comparisons: without a lock at the clock read, under the
   lock at the time held if the second look finds nothing, and after a miss at the clock read.
   */
  lemma DecisionsFollowTheRules(run: Run, j: nat, c: CallId)
    requires IsRun(run) && StatementOf(run, j, c)
    ensures j + 1 < |run.states| && c in run.states[j + 1].calls
    ensures var s, call := run.states[j], run.states[j].calls[c];
            && (call.pc.Timing? && !call.strategy.Pessimistic? ==>
                  FollowsTheRules(call, call.pc.row, s.clock, 0, Inserting(call.pc.row, s.clock), PcAfter(run, j, c)))
            && (call.pc.Rechecking? && ExistingBid(s.log, call.command.request).None? ==>
                  FollowsTheRules(call, call.pc.row, call.pc.now, 0, Inserting(call.pc.row, call.pc.now),
                                  PcAfter(run, j, c)))
            && (call.pc.Retiming? ==>
                  FollowsTheRules(call, call.pc.row, s.clock, call.attempt,
                                  if call.strategy.Optimistic? && call.attempt < call.strategy.maxAttempts
                                  then Closing(Retry)
                                  else Closing(Return(Rejected(ConflictRetryExhausted, None, call.attempt,
                                      call.attempt))),
                                  PcAfter(run, j, c)))
  {
    StepOfCall(run, j, c);
    var s, call := run.states[j], run.states[j].calls[c];
    if call.pc.Timing? || call.pc.Rechecking? {
      DecideFollowsTheRules(call, call.pc.row, if call.pc.Timing? then s.clock else call.pc.now);
    } else if call.pc.Retiming? {
      DecideAfterMissFollowsTheRules(call, call.pc.row, s.clock);
    }
  }

  /**
   Every update of a run goes on exactly when its conditions hold: the optimistic one first on the row it finds, at the
   clock read, then again on the newest row, at the same time; the others always.
   */
  lemma UpdatesFollowTheGuard(run: Run, j: nat, c: CallId)
    requires IsRun(run) && StatementOf(run, j, c)
    requires run.states[j].calls[c].pc.Updating? || run.states[j].calls[c].pc.UpdateWaiting?
    ensures j + 1 < |run.states| && c in run.states[j + 1].calls
    ensures var s, call := run.states[j], run.states[j].calls[c];
            var pc, after, a := call.pc, PcAfter(run, j, c), call.command.auction;
            && a in s.auctions
            && (pc.Updating? && call.strategy.Optimistic? ==>
                  after == if GuardHolds(s.auctions[a], pc.row.version, call.command.amount, s.clock)
                           then UpdateWaiting(pc.row, pc.now, pc.bid, s.clock)
                           else Closing(Missed(Miss(pc.row.version, s.clock))))
            && (pc.UpdateWaiting? ==>
                  if GuardHolds(s.auctions[a], pc.row.version, call.command.amount, pc.guardedAt)
                  then after.Committing? && after.bid == pc.bid
                  else after == Closing(Missed(Miss(pc.row.version, pc.guardedAt))))
            && (pc.Updating? && !call.strategy.Optimistic? ==> after.Committing? && after.bid == pc.bid)
            && (after.Committing? ==>
                  && after.next.currentPrice == Some(pc.bid.amount) && after.next.winner == Some(pc.bid.id)
                  && after.next.version == (if call.strategy.Unsafe? then pc.row.version else s.auctions[a].version) + 1
                  && Fresh(after.next) == Fresh(s.auctions[a]))
  {
    StepOfCall(run, j, c);
  }

  // ----- Counts

  /**
   A reply counts the attempt it was found in and the misses before it; on a later connection it counts one attempt.
   */
  predicate RepliedAt(call: Call, attempts: int, conflicts: int) {
    || ((call.pc.Lookup? || call.pc.Rechecking?) && attempts == call.attempt && conflicts == |call.misses|)
    || (call.pc.Relooking? && attempts == 1 && conflicts == 0)
  }

  /** Other answers count the attempt; conflicts are none inside the attempt, and all misses after one. */
  predicate RefusedAt(call: Call, inside: bool, after: bool, attempts: int, conflicts: int) {
    || (inside && attempts == call.attempt && conflicts == 0)
    || (after && attempts == conflicts == |call.misses|)
  }

  /** The statement the call is at gives this answer, with these counts. */
  predicate GivenAt(call: Call, o: Outcome) {
    match o
    case Accepted(_, attempts, conflicts) =>
      call.pc.Committing? && attempts == call.attempt && conflicts == |call.misses|
    case Replayed(_, attempts, conflicts) => RepliedAt(call, attempts, conflicts)
    case Rejected(reason, _, attempts, conflicts) =>
      match reason
      case RequestIdReused => RepliedAt(call, attempts, conflicts)
      case AuctionNotFound => RefusedAt(call, call.pc.Reading?, call.pc.Rereading?, attempts, conflicts)
      case ConflictRetryExhausted => RefusedAt(call, false, call.pc.Retiming?, attempts, conflicts)
      case _ => RefusedAt(call, call.pc.Timing? || call.pc.Rechecking?, call.pc.Retiming?, attempts, conflicts)
  }

  lemma NextGives(call: Call, view: View, id: BidId)
    requires CountsOk(call)
    ensures var after := Next(call, view, id);
            Answer(after.pc).Some? ==>
              && after.attempt == call.attempt && after.misses == call.misses
              && (Answer(after.pc) == Answer(call.pc)
                  || (Answer(call.pc).None? && GivenAt(call, Answer(after.pc).value)))
  {
  }

  /** Step j gives the answer that call c has in state i: before it there is none, after it there is this one. */
  ghost predicate AnswerStep(run: Run, j: int, i: int, c: CallId) {
    && StatementOf(run, j, c) && j < i < |run.states|
    && c in run.states[j + 1].calls && c in run.states[i].calls
    && Answer(run.states[j].calls[c].pc).None?
    && Answer(run.states[j + 1].calls[c].pc) == Answer(run.states[i].calls[c].pc)
  }

  /** The answer of call c in state i was given at step j, in the attempt and after the misses it still has. */
  ghost predicate AnsweredAt(run: Run, j: int, i: int, c: CallId)
    requires 0 <= i < |run.states| && c in run.states[i].calls && Answer(run.states[i].calls[c].pc).Some?
  {
    && AnswerStep(run, j, i, c)
    && var call, later := run.states[j].calls[c], run.states[i].calls[c];
       GivenAt(call, Answer(later.pc).value) && call.attempt == later.attempt && call.misses == later.misses
  }

  /** The answer of the call was given at one of its statements, with the counts that this statement calls for. */
  ghost predicate WasGiven(run: Run, i: int, c: CallId) {
    && 0 <= i < |run.states| && c in run.states[i].calls && Answer(run.states[i].calls[c].pc).Some?
    && exists j :: AnsweredAt(run, j, i, c)
  }

  lemma AnswerStepIsCounted(run: Run, j: nat, c: CallId)
    requires IsRun(run) && StatementOf(run, j, c)
    ensures j + 1 < |run.states| && c in run.states[j + 1].calls
    ensures var before, after := run.states[j].calls[c], run.states[j + 1].calls[c];
            Answer(after.pc).Some? ==>
              && after.attempt == before.attempt && after.misses == before.misses
              && (Answer(after.pc) == Answer(before.pc)
                  || (Answer(before.pc).None? && GivenAt(before, Answer(after.pc).value)))
  {
    var s := run.states[j];
    StepOfCall(run, j, c);
    RunKeepsOutcomes(run, j);
    assert CallOutcome(s.log, c, s.calls[c]);
    NextGives(s.calls[c], Sees(s, c), run.actions[j].id);
  }

  /** From one state to the next an answer is given, as counted above, or stays with its attempt and misses. */
  lemma AnswerIsGivenOrStays(run: Run, k: nat, c: CallId)
    requires IsRun(run) && k < |run.actions| && c in run.states[k + 1].calls
    requires Answer(run.states[k + 1].calls[c].pc).Some?
    ensures c in run.states[k].calls
    ensures var before, after := run.states[k].calls[c], run.states[k + 1].calls[c];
            && before.attempt == after.attempt && before.misses == after.misses
            && (Answer(before.pc) == Answer(after.pc) || AnsweredAt(run, k, k + 1, c))
  {
    assert Follows(run, k);
    var action := run.actions[k];
    assert c in run.states[k].calls;
    if action.Statement? && action.call == c {
      AnswerStepIsCounted(run, k, c);
    }
  }

  /**
   Every answer of a call was given at one identified statement, which fixes its counts: an acceptance at the commit; a
   reply at a look, counted as one attempt on a later connection; a rejection by the rules or for want of the auction
   inside the attempt, without conflicts, or after a miss, with as many conflicts as attempts; giving up after a miss.
   */
  lemma {:induction false} AnswersAreCounted(run: Run, i: nat, c: CallId) returns (j: nat)
    requires IsRun(run) && i < |run.states| && c in run.states[i].calls && Answer(run.states[i].calls[c].pc).Some?
    ensures AnsweredAt(run, j, i, c)
  {
    if i == 0 {
      assert false;
    } else {
      AnswerIsGivenOrStays(run, i - 1, c);
      if Answer(run.states[i - 1].calls[c].pc) == Answer(run.states[i].calls[c].pc) {
        j := AnswersAreCounted(run, i - 1, c);
      } else {
        j := i - 1;
      }
    }
  }

  // ----- Raises

  function Failure(pc: Pc): Option<Error> {
    match pc
    case Closing(Fail(e)) => Some(e)
    case Raised(e) => Some(e)
    case _ => None
  }

  /** No legal amount can follow this row: its next required price is above the money bound. */
  predicate NoRoom(row: Auction) {
    row.currentPrice.Some? && row.currentPrice.value + row.increment > MAX_MONEY_CENTS
  }

  /**
   Statements raise only when an evaluation overflows, or a unique violation finds no bid; else failures are passed
   on.
   */
  lemma NextFails(call: Call, view: View, id: BidId)
    requires ValidCommand(call.command)
    ensures var after := Next(call, view, id).pc;
            Failure(after).Some? ==>
              || Failure(after) == Failure(call.pc)
              || (Decides(call.pc) && Failure(after) == Some(MoneyOverflow) && NoRoom(call.pc.row))
              || Failure(after) == Some(UnresolvedDuplicate)
  {
  }

  lemma StatementFails(run: Run, j: nat, c: CallId)
    requires IsRun(run) && StatementOf(run, j, c)
    ensures j + 1 < |run.states| && c in run.states[j + 1].calls
    ensures var before, after := run.states[j].calls[c].pc, run.states[j + 1].calls[c].pc;
            Failure(after).Some? ==>
              || Failure(after) == Failure(before)
              || (Decides(before) && Failure(after) == Some(MoneyOverflow) && NoRoom(before.row))
  {
    var s := run.states[j];
    StepOfCall(run, j, c);
    RunKeepsInv(run, j);
    assert CallOk(s.catalog, s.log, s.clock, s.drawn, c, s.calls[c]);
    NextFails(s.calls[c], Sees(s, c), run.actions[j].id);
    DuplicatesAlwaysResolve(run, j + 1, c);
  }

  /** The call read a row, and met a clock value after it, such that no legal amount is ever accepted on the row. */
  ghost predicate MetNoRoom(run: Run, i: int, c: CallId) {
    exists j, k, row, now ::
      k < i && RowThenTime(run, j, k, c, row, now) && forall x, t | ValidMoney(x) :: !Accepts(row, x, t)
  }

  lemma NoRoomWasMet(run: Run, i: nat, c: CallId)
    requires IsRun(run) && i < |run.states| && c in run.states[i].calls
    requires Decides(run.states[i].calls[c].pc) && NoRoom(run.states[i].calls[c].pc.row)
    ensures MetNoRoom(run, i + 1, c)
  {
    DecisionWasMet(run, i, c);
    var row := run.states[i].calls[c].pc.row;
    RunKeepsInv(run, i);
    assert CallOk(run.states[i].catalog, run.states[i].log, run.states[i].clock, run.states[i].drawn, c,
                  run.states[i].calls[c]);
    ErrorMeans(row, 1, 0);
  }

  /**
   In any run of any mix of strategies a call raises for money overflow only after reading a row on which no legal
   amount
   is ever accepted, whether in its attempt or after a miss.
   */
  lemma {:induction false} OverflowMeansNoRoom(run: Run, i: nat, c: CallId)
    requires IsRun(run) && i < |run.states| && c in run.states[i].calls
    requires Failure(run.states[i].calls[c].pc) == Some(MoneyOverflow)
    ensures MetNoRoom(run, i, c)
  {
    if i == 0 {
      assert false;
    } else {
      assert Follows(run, i - 1);
      var s, action := run.states[i - 1], run.actions[i - 1];
      assert c in s.calls;
      if action.Statement? && action.call == c {
        StatementFails(run, i - 1, c);
      }
      if Failure(s.calls[c].pc) == Some(MoneyOverflow) {
        OverflowMeansNoRoom(run, i - 1, c);
      } else {
        NoRoomWasMet(run, i - 1, c);
      }
    }
  }

  /** While the required price of its auction has stayed within the money bound, no call raises for overflow. */
  lemma RoomMeansNoOverflow(run: Run, i: nat, c: CallId)
    requires IsRun(run) && i < |run.states| && c in run.states[i].calls
    requires var a := run.states[i].calls[c].command.auction;
             forall j | 0 <= j < i && a in run.states[j].auctions ::
                 RequiredPrice(run.states[j].auctions[a]) <= MAX_MONEY_CENTS
    ensures Failure(run.states[i].calls[c].pc) != Some(MoneyOverflow)
  {
    if Failure(run.states[i].calls[c].pc) == Some(MoneyOverflow) {
      OverflowMeansNoRoom(run, i, c);
      var j, k, row, now :|
        k < i && RowThenTime(run, j, k, c, row, now) && forall x, t | ValidMoney(x) :: !Accepts(row, x, t);
      RunGrows(run, j, i);
      RunKeepsInv(run, j);
      assert RowIsLatest(run.states[j].catalog[row.id], History(run.states[j].log, row.id), row);
      ErrorMeans(row, 1, 0);
      assert false;
    }
  }

  /** In a safe run it is enough that the price is still within the bound. */
  lemma SafeRoomMeansNoOverflow(run: Run, i: nat, c: CallId)
    requires IsRun(run) && i < |run.states| && NoUnsafe(run.states[i]) && c in run.states[i].calls
    requires var a := run.states[i].calls[c].command.auction;
             a in run.states[i].auctions ==> RequiredPrice(run.states[i].auctions[a]) <= MAX_MONEY_CENTS
    ensures Failure(run.states[i].calls[c].pc) != Some(MoneyOverflow)
  {
    var a := run.states[i].calls[c].command.auction;
    forall j | 0 <= j < i && a in run.states[j].auctions
      ensures RequiredPrice(run.states[j].auctions[a]) <= MAX_MONEY_CENTS
    {
      RunKeepsInv(run, j);
      EarlierState(run, j, i);
      RowsMoveForward(run, j, i, a);
    }
    RoomMeansNoOverflow(run, i, c);
  }
}
