/**
 Optimistic retries in safe runs: a miss means the auction moved on or ended, exhaustion means it moved on at every
 attempt, and what a rejection said about prices and times stays true.
 */
module Contention {
  import opened Models
  import opened Rules
  import opened Transactions
  import opened BaseInvariant
  import opened Progress
  import opened LocalSteps
  import opened SafeRefinement
  import opened Outcomes

  // ----- What misses and rejections say

  /** Observed versions start at zero or more and strictly rise. */
  ghost predicate Rising(misses: seq<Miss>) {
    && (misses != [] ==> misses[0].version >= 0)
    && forall i, j | 0 <= i < j < |misses| :: misses[i].version < misses[j].version
  }

  /** Every observed version is older than this one. */
  ghost predicate AllBelow(misses: seq<Miss>, version: int) {
    forall k | 0 <= k < |misses| :: misses[k].version < version
  }

  /** A miss has a cause: the row has a newer version, or the update came at or after the end. */
  ghost predicate Caused(created: Auction, miss: Miss, version: int, clock: Instant) {
    miss.guardedAt <= clock && (miss.version < version || miss.guardedAt >= created.endsAt)
  }

  ghost predicate LastCaused(created: Auction, misses: seq<Miss>, version: int, clock: Instant) {
    misses != [] && Caused(created, misses[|misses| - 1], version, clock)
  }

  /** Every version costs at least one increment. */
  ghost predicate PriceFloor(created: Auction, row: Auction) {
    RequiredPrice(row) >= created.startingPrice + row.version * created.increment
  }

  /** What a rejection said is still true of the newest row and the clock. */
  ghost predicate OutcomeStable(created: Auction, newest: Auction, clock: Instant, call: Call, o: Outcome) {
    o.Rejected? ==>
      && (o.reason.BidTooLow? ==> o.minimum.Some? && call.command.amount < o.minimum.value <= RequiredPrice(newest))
      && (o.reason.AuctionClosed? ==> created.endsAt <= clock)
      && (o.reason.ConflictRetryExhausted? ==>
            && call.strategy.Optimistic?
            && AllBelow(call.misses, newest.version)
            && call.misses != [] && call.misses[|call.misses| - 1].guardedAt < created.endsAt
            && call.command.amount >= created.startingPrice + call.strategy.maxAttempts * created.increment)
  }

  ghost predicate ContentionOk(created: Auction, newest: Auction, clock: Instant, call: Call) {
    && Rising(call.misses)
    && (HeldRow(call.pc).Some? ==>
          PriceFloor(created, HeldRow(call.pc).value) && RequiredPrice(HeldRow(call.pc).value) <= RequiredPrice(newest))
    && match call.pc
       case Connecting => AllBelow(call.misses, newest.version)
       case Lookup => AllBelow(call.misses, newest.version)
       case Reading => AllBelow(call.misses, newest.version)
       case Timing(row) => AllBelow(call.misses, row.version)
       case Rechecking(row, _) => AllBelow(call.misses, row.version)
       case Inserting(row, _) => AllBelow(call.misses, row.version)
       case InsertWaiting(row, _, _) => AllBelow(call.misses, row.version)
       case Updating(row, _, _) => AllBelow(call.misses, row.version)
       case UpdateWaiting(row, _, _, _) => AllBelow(call.misses, row.version)
       case Closing(Missed(miss)) =>
         AllBelow(call.misses, miss.version) && 0 <= miss.version <= newest.version
             && Caused(created, miss, newest.version, clock)
       case Closing(Retry) => AllBelow(call.misses, newest.version)
       case Closing(Return(o)) => OutcomeStable(created, newest, clock, call, o)
       case Done(o) => OutcomeStable(created, newest, clock, call, o)
       case Reconnecting(Classify) => LastCaused(created, call.misses, newest.version, clock)
       case Relooking(Classify) => LastCaused(created, call.misses, newest.version, clock)
       case Rereading => LastCaused(created, call.misses, newest.version, clock)
       case Retiming(row) => LastCaused(created, call.misses, row.version, clock)
       case _ => true
  }

  /** Nothing said becomes false when versions, prices and time move forward. */
  lemma ContentionStays(created: Auction, newest: Auction, clock: Instant, call: Call, newer: Auction, later: Instant)
    requires ContentionOk(created, newest, clock, call)
    requires newest.version <= newer.version && RequiredPrice(newest) <= RequiredPrice(newer) && clock <= later
    ensures ContentionOk(created, newer, later, call)
  {
  }

  lemma {:induction false} RisingCounts(misses: seq<Miss>, k: nat)
    requires Rising(misses) && k < |misses|
    ensures misses[0].version + k <= misses[k].version
  {
    if k == 0 {
    } else {
      RisingCounts(misses, k - 1);
    }
  }

  // ----- Each statement keeps its own call's facts

  /** Everything known about a call on a catalogued auction before one of its statements. */
  ghost predicate Situated(s: State, c: CallId) {
    && c in s.calls
    && var call := s.calls[c]; var a := call.command.auction;
       && a in s.catalog && a in s.auctions
       && ValidAuction(s.catalog[a]) && RowIsLatest(s.catalog[a], History(s.log, a), s.auctions[a])
       && PriceFloor(s.catalog[a], s.auctions[a])
       && CallOk(s.catalog, s.log, s.clock, s.drawn, c, call)
       && HeldRowOk(s.auctions, call)
       && CountsOk(call)
       && FactsOf(s, call)
  }

  ghost predicate FactsOf(s: State, call: Call)
    requires call.command.auction in s.catalog && call.command.auction in s.auctions
  {
    ContentionOk(s.catalog[call.command.auction], s.auctions[call.command.auction], s.clock, call)
  }

  /** A guard that fails on the newest row, after the row read was acceptable, has a cause. */
  lemma FailedGuardIsCaused(created: Auction, row: Auction, newest: Auction, amount: int, now: Instant,
      guardedAt: Instant, clock: Instant)
    requires Fresh(row) == created && ValidAuction(row) && Accepts(row, amount, now) && now <= guardedAt <= clock
    requires Behind(row, newest) && !SqlGuard(newest, row.version, amount, guardedAt)
    ensures Caused(created, Miss(row.version, guardedAt), newest.version, clock)
  {
  }

  lemma DecideFacts(created: Auction, newest: Auction, clock: Instant, call: Call, row: Auction, now: Instant)
    requires Fresh(row) == created && PriceFloor(created, row) && RequiredPrice(row) <= RequiredPrice(newest)
    requires now <= clock
    requires Rising(call.misses) && AllBelow(call.misses, row.version)
    ensures ContentionOk(created, newest, clock, call.(pc := Decide(call, row, now)))
  {
  }

  /** Exhaustion is reported only if the classified row still accepts the bid, so its price has left room for it. */
  lemma DecideAfterMissFacts(created: Auction, newest: Auction, clock: Instant, call: Call, row: Auction)
    requires Fresh(row) == created && ValidAuction(row) && PriceFloor(created, row) && ValidMoney(created.increment)
    requires RequiredPrice(row) <= RequiredPrice(newest) && row.version <= newest.version
    requires Rising(call.misses) && LastCaused(created, call.misses, row.version, clock)
    requires call.strategy.Optimistic? && |call.misses| == call.attempt <= call.strategy.maxAttempts
    ensures ContentionOk(created, newest, clock, call.(pc := DecideAfterMiss(call, row, clock)))
  {
    var n := |call.misses|;
    RisingCounts(call.misses, n - 1);
    if Accepts(row, call.command.amount, clock) {
      assert call.misses[n - 1].version < row.version;
      assert AllBelow(call.misses, row.version);
      ProductGrows(n, row.version, created.increment);
    }
  }

  /** After a look for the request id, for the first time or after a miss, or a read of the auction. */
  lemma NextLookFacts(s: State, c: CallId, id: BidId)
    requires Situated(s, c)
    requires var pc := s.calls[c].pc;
             pc.Lookup? || pc.Relooking? || pc.Rechecking? || pc.Reading? || pc.Rereading?
    ensures FactsOf(s, Next(s.calls[c], Sees(s, c), id))
  {
    var call := s.calls[c];
    var a := call.command.auction;
    if call.pc.Rechecking? {
      DecideFacts(s.catalog[a], s.auctions[a], s.clock, call, call.pc.row, call.pc.now);
    }
  }

  /** After a read of the clock. */
  lemma NextTimeFacts(s: State, c: CallId, id: BidId)
    requires Situated(s, c) && (s.calls[c].pc.Timing? || s.calls[c].pc.Retiming?)
    ensures FactsOf(s, Next(s.calls[c], Sees(s, c), id))
  {
    var call := s.calls[c];
    var a := call.command.auction;
    if call.pc.Timing? {
      DecideFacts(s.catalog[a], s.auctions[a], s.clock, call, call.pc.row, s.clock);
    } else {
      DecideAfterMissFacts(s.catalog[a], s.auctions[a], s.clock, call, call.pc.row);
    }
  }

  /** After an update: if the guard fails there is a cause. */
  lemma NextUpdateFacts(s: State, c: CallId, id: BidId)
    requires Situated(s, c) && (s.calls[c].pc.Updating? || s.calls[c].pc.UpdateWaiting?)
    ensures FactsOf(s, Next(s.calls[c], Sees(s, c), id))
  {
    var call := s.calls[c];
    var a := call.command.auction;
    var pc := call.pc;
    var guardedAt := if pc.UpdateWaiting? then pc.guardedAt else s.clock;
    if call.strategy.Optimistic? && !SqlGuard(s.auctions[a], pc.row.version, call.command.amount, guardedAt) {
      FailedGuardIsCaused(s.catalog[a], pc.row, s.auctions[a], call.command.amount, pc.now, guardedAt, s.clock);
    }
  }

  /** After leaving a block: a miss has been recorded with its cause. */
  lemma NextCloseFacts(s: State, c: CallId, id: BidId)
    requires Situated(s, c) && s.calls[c].pc.Closing?
    ensures FactsOf(s, Next(s.calls[c], Sees(s, c), id))
  {
  }

  lemma NextOtherFacts(s: State, c: CallId, id: BidId)
    requires Situated(s, c)
    requires var pc := s.calls[c].pc;
             pc.Connecting? || pc.Reconnecting? || pc.Inserting? || pc.InsertWaiting? || pc.Committing?
    ensures FactsOf(s, Next(s.calls[c], Sees(s, c), id))
  {
  }

  lemma NextFacts(s: State, c: CallId, id: BidId)
    requires Situated(s, c) && !Finished(s.calls[c].pc)
    ensures FactsOf(s, Next(s.calls[c], Sees(s, c), id))
  {
    var pc := s.calls[c].pc;
    if LooksUp(pc) || pc.Reading? || pc.Rereading? {
      NextLookFacts(s, c, id);
    } else if pc.Timing? || pc.Retiming? {
      NextTimeFacts(s, c, id);
    } else if pc.Updating? || pc.UpdateWaiting? {
      NextUpdateFacts(s, c, id);
    } else if pc.Closing? {
      NextCloseFacts(s, c, id);
    } else {
      NextOtherFacts(s, c, id);
    }
  }

  // ----- The invariant over safe runs

  ghost predicate ContentionInv(s: State) {
    && (forall a | a in s.catalog && a in s.auctions :: PriceFloor(s.catalog[a], s.auctions[a]))
    && (forall c | c in s.calls && s.calls[c].command.auction in s.catalog
          && s.calls[c].command.auction in s.auctions :: FactsOf(s, s.calls[c]))
  }

  ghost predicate FullInv(s: State) {
    Inv(s) && SafeInv(s) && OutcomeInv(s) && ContentionInv(s)
  }

  /** A safe commit moves its auction forward: one version up, the required price up by at least the increment. */
  lemma CommitMovesForward(s: State, c: CallId)
    requires FullInv(s) && c in s.calls && s.calls[c].pc.Committing? && !s.calls[c].strategy.Unsafe?
    ensures var t := CommitBid(s, c); var a := s.calls[c].command.auction;
            && a in s.catalog && a in s.auctions && a in t.auctions
            && t.auctions[a].version == s.auctions[a].version + 1
            && RequiredPrice(s.auctions[a]) <= s.calls[c].pc.bid.amount < RequiredPrice(t.auctions[a])
            && PriceFloor(s.catalog[a], t.auctions[a])
  {
    var call := s.calls[c];
    var a := call.command.auction;
    var pc := call.pc;
    CommitFollowsRule(s, c);
    assert RowIsLatest(s.catalog[a], History(s.log, a), s.auctions[a]);
    AcceptanceMeans(s.auctions[a], pc.bid.id, pc.bid.amount, pc.guardedAt);
    NextMultiple(s.auctions[a].version, s.catalog[a].increment);
  }

  lemma CommitKeepsFacts(s: State, c: CallId, d: CallId)
    requires FullInv(s) && Ready(s, c) && s.calls[c].pc.Committing? && !s.calls[c].strategy.Unsafe? && d in s.calls
    requires s.calls[d].command.auction in s.catalog && s.calls[d].command.auction in CommitBid(s, c).auctions
    ensures FactsOf(CommitBid(s, c), CommitBid(s, c).calls[d])
  {
    var t := CommitBid(s, c);
    var b := s.calls[d].command.auction;
    CommitMovesForward(s, c);
    assert b in s.auctions;
    assert FactsOf(s, s.calls[d]);
    if d != c {
      ContentionStays(s.catalog[b], s.auctions[b], s.clock, s.calls[d], t.auctions[b], t.clock);
    }
  }

  lemma CommitKeepsContention(s: State, c: CallId)
    requires FullInv(s) && Ready(s, c) && s.calls[c].pc.Committing? && !s.calls[c].strategy.Unsafe?
    ensures ContentionInv(CommitBid(s, c))
  {
    var t := CommitBid(s, c);
    CommitMovesForward(s, c);
    forall d | d in t.calls && t.calls[d].command.auction in t.catalog && t.calls[d].command.auction in t.auctions
      ensures FactsOf(t, t.calls[d])
    {
      CommitKeepsFacts(s, c, d);
    }
  }

  lemma OwnStatementFacts(s: State, c: CallId, id: BidId)
    requires FullInv(s) && Ready(s, c)
    requires s.calls[c].command.auction in s.catalog && s.calls[c].command.auction in s.auctions
    ensures FactsOf(s, Execute(s, c, id).calls[c])
  {
    var a := s.calls[c].command.auction;
    assert CallOutcome(s.log, c, s.calls[c]);
    assert RowIsLatest(s.catalog[a], History(s.log, a), s.auctions[a]);
    assert Situated(s, c);
    ExecuteIsNext(s, c, id);
    NextFacts(s, c, id);
  }

  /** Whatever another call does short of committing, or the clock, keeps the facts of a call. */
  lemma OtherStepKeepsFacts(s: State, t: State, d: CallId)
    requires FullInv(s) && d in s.calls && d in t.calls && t.catalog == s.catalog && t.auctions == s.auctions
    requires s.clock <= t.clock
    requires s.calls[d].command.auction in s.catalog && s.calls[d].command.auction in s.auctions
    ensures FactsOf(t, s.calls[d])
  {
    var b := s.calls[d].command.auction;
    assert FactsOf(s, s.calls[d]);
    ContentionStays(s.catalog[b], s.auctions[b], s.clock, s.calls[d], t.auctions[b], t.clock);
  }

  /** A step that does not commit keeps the facts of every call. */
  lemma QuietStepKeepsFacts(s: State, action: Action, d: CallId)
    requires FullInv(s) && Enabled(s, action)
    requires action.Statement? ==> !s.calls[action.call].pc.Committing?
    requires d in Perform(s, action).calls
    requires var b := Perform(s, action).calls[d].command.auction; b in s.catalog && b in s.auctions
    ensures FactsOf(Perform(s, action), Perform(s, action).calls[d])
  {
    var t := Perform(s, action);
    if d in s.calls {
      if action.Statement? && action.call == d {
        OwnStatementFacts(s, d, action.id);
      } else {
        OtherStepKeepsFacts(s, t, d);
      }
    }
  }

  lemma StepKeepsContention(s: State, action: Action)
    requires FullInv(s) && Enabled(s, action) && NoUnsafe(Perform(s, action))
    ensures ContentionInv(Perform(s, action))
  {
    var t := Perform(s, action);
    if action.Statement? && s.calls[action.call].pc.Committing? {
      assert t.calls[action.call].strategy == s.calls[action.call].strategy;
      CommitKeepsContention(s, action.call);
    } else {
      forall d | d in t.calls && t.calls[d].command.auction in t.catalog && t.calls[d].command.auction in t.auctions
        ensures FactsOf(t, t.calls[d])
      {
        QuietStepKeepsFacts(s, action, d);
      }
    }
  }

  lemma {:induction false} RunKeepsAll(run: Run, i: nat)
    requires IsRun(run) && i < |run.states| && NoUnsafe(run.states[i])
    ensures FullInv(run.states[i])
  {
    RunKeepsSafe(run, i);
    RunKeepsOutcomes(run, i);
    if i == 0 {
    } else {
      RunGrows(run, i - 1, i);
      RunKeepsAll(run, i - 1);
      assert Follows(run, i - 1);
      StepKeepsContention(run.states[i - 1], run.actions[i - 1]);
    }
  }
}
