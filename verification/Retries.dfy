/** Main results on retries, rejections and clocks, over whole runs. */
module Retries {
  import opened Wrappers
  import opened Models
  import opened Rules
  import opened Transactions
  import opened BaseInvariant
  import opened Preservation
  import opened Progress
  import opened SafeRefinement
  import opened LocalSteps
  import opened RunSteps
  import opened Outcomes
  import opened Lookups
  import opened Rejections
  import opened Contention

  // ----- Prices only rise

  /** One safe step never moves an auction backward. */
  lemma StepMovesForward(s: State, action: Action, a: AuctionId)
    requires FullInv(s) && Enabled(s, action) && NoUnsafe(Perform(s, action)) && a in s.catalog
    ensures var t := Perform(s, action);
            && a in s.auctions && a in t.auctions
            && s.auctions[a].version <= t.auctions[a].version
            && RequiredPrice(s.auctions[a]) <= RequiredPrice(t.auctions[a])
  {
    if action.Statement? && s.calls[action.call].pc.Committing? {
      assert !Perform(s, action).calls[action.call].strategy.Unsafe?;
      CommitMovesForward(s, action.call);
    }
  }

  /** Along a safe run the version and the required price of an auction never fall. */
  lemma {:induction false} RowsMoveForward(run: Run, i: nat, j: nat, a: AuctionId)
    requires IsRun(run) && i <= j < |run.states| && NoUnsafe(run.states[j]) && a in run.states[j].catalog
    ensures a in run.states[i].auctions && a in run.states[j].auctions
    ensures run.states[i].auctions[a].version <= run.states[j].auctions[a].version
    ensures RequiredPrice(run.states[i].auctions[a]) <= RequiredPrice(run.states[j].auctions[a])
    decreases j
  {
    if i < j {
      EarlierState(run, j - 1, j);
      RowsMoveForward(run, i, j - 1, a);
      assert Follows(run, j - 1);
      RunKeepsAll(run, j - 1);
      StepMovesForward(run.states[j - 1], run.actions[j - 1], a);
    } else {
      RunKeepsSafe(run, j);
    }
  }

  /** A safe step that commits a bid commits one at or above the required price. */
  lemma NewCommitCosts(s: State, action: Action, t: State)
    requires FullInv(s) && Enabled(s, action) && t == Perform(s, action) && NoUnsafe(t)
    requires |s.log| < |t.log|
    ensures var b := t.log[|s.log|].bid;
            && |t.log| == |s.log| + 1
            && b.auction in s.catalog && b.auction in s.auctions && RequiredPrice(s.auctions[b.auction]) <= b.amount
  {
    var c := action.call;
    assert !t.calls[c].strategy.Unsafe?;
    assert CallOk(s.catalog, s.log, s.clock, s.drawn, c, s.calls[c]);
    CommitMovesForward(s, c);
  }

  /** The same in a run: whatever the step into state j commits costs what the rule required before. */
  lemma StepInRunCosts(run: Run, j: nat, k: nat)
    requires IsRun(run) && 0 < j < |run.states| && NoUnsafe(run.states[j])
    requires |run.states[j - 1].log| <= k < |run.states[j].log|
    ensures var s := run.states[j - 1]; var b := run.states[j].log[k].bid;
            b.auction in s.auctions && b.auction in s.catalog && RequiredPrice(s.auctions[b.auction]) <= b.amount
  {
    EarlierState(run, j - 1, j);
    assert Follows(run, j - 1);
    RunKeepsAll(run, j - 1);
    NewCommitCosts(run.states[j - 1], run.actions[j - 1], run.states[j]);
  }

  /** Every bid committed after state i costs at least what the rule required at state i. */
  lemma {:induction false} LaterCommitsCost(run: Run, i: nat, j: nat, k: nat)
    requires IsRun(run) && i <= j < |run.states| && NoUnsafe(run.states[j])
    requires |run.states[i].log| <= k < |run.states[j].log|
    ensures var b := run.states[j].log[k].bid;
            b.auction in run.states[i].auctions && b.amount >= RequiredPrice(run.states[i].auctions[b.auction])
    decreases j
  {
    if i == j {
    } else {
      EarlierState(run, j - 1, j);
      if k < |run.states[j - 1].log| {
        LaterCommitsCost(run, i, j - 1, k);
      } else {
        StepInRunCosts(run, j, k);
        RowsMoveForward(run, i, j - 1, run.states[j].log[k].bid.auction);
      }
    }
  }

  /**
   A rejection as too low stays right: from the moment a row is read, and after the rejection with its minimum, no bid
   below that row's required price, or below that minimum, is ever committed on the auction.
   */
  lemma TooLowStaysTooLow(run: Run, i: nat, j: nat, c: CallId, k: nat)
    requires IsRun(run) && i <= j < |run.states| && NoUnsafe(run.states[j]) && c in run.states[i].calls
    requires |run.states[i].log| <= k < |run.states[j].log|
    requires run.states[j].log[k].bid.auction == run.states[i].calls[c].command.auction
    ensures var call := run.states[i].calls[c]; var b := run.states[j].log[k].bid;
            && (HeldRow(call.pc).Some? ==> RequiredPrice(HeldRow(call.pc).value) <= b.amount)
            && (call.pc.Done? && call.pc.outcome.Rejected? && call.pc.outcome.reason.BidTooLow? ==>
                  call.pc.outcome.minimum.Some? && call.command.amount < call.pc.outcome.minimum.value <= b.amount)
  {
    RunGrows(run, i, j);
    RunKeepsAll(run, i);
    LaterCommitsCost(run, i, j, k);
    assert FactsOf(run.states[i], run.states[i].calls[c]);
  }

  /** A call rejected as closed met the clock at or past the end of a catalogued auction. */
  lemma ClosedWasAtEnd(run: Run, i: nat, c: CallId) returns (k: nat)
    requires IsRun(run) && i < |run.states| && c in run.states[i].calls && run.states[i].calls[c].pc.Done?
    requires var o := run.states[i].calls[c].pc.outcome; o.Rejected? && o.reason.AuctionClosed?
    ensures var a := run.states[i].calls[c].command.auction;
            k < i && InFlight(run, k, c) && a in run.states[i].catalog
            && run.states[i].catalog[a].endsAt <= run.states[k].clock
  {
    var call := run.states[i].calls[c];
    RejectionsAreJustified(run, i, c);
    var j, l, row, now :|
      l < i && RowThenTime(run, j, l, c, row, now) && Refuses(row, call.command.amount, now, Refusal(call.pc).value);
    k := l;
    RunGrows(run, j, i);
    RunKeepsInv(run, j);
    assert RowIsLatest(run.states[j].catalog[row.id], History(run.states[j].log, row.id), row);
  }

  /**
   A rejection as closed stays right, in any mix of strategies: the call met a clock value at or past the end, every bid
   ever committed on the auction was validated before that value, and no later clock value accepts any amount.
   */
  lemma ClosedStaysClosed(run: Run, i: nat, j: nat, c: CallId) returns (k: nat)
    requires IsRun(run) && i <= j < |run.states| && c in run.states[i].calls && run.states[i].calls[c].pc.Done?
    requires var o := run.states[i].calls[c].pc.outcome; o.Rejected? && o.reason.AuctionClosed?
    ensures k < i && InFlight(run, k, c)
    ensures var a, met, t := run.states[i].calls[c].command.auction, run.states[k].clock, run.states[j];
            && a in t.auctions && t.auctions[a].endsAt <= met
            && (forall m | 0 <= m < |t.log| && t.log[m].bid.auction == a :: t.log[m].validatedAt < met)
            && (forall amount, now | now >= met :: !Accepts(t.auctions[a], amount, now))
  {
    var t := run.states[j];
    var a := run.states[i].calls[c].command.auction;
    k := ClosedWasAtEnd(run, i, c);
    RunGrows(run, i, j);
    RunKeepsInv(run, j);
    assert RowIsLatest(t.catalog[a], History(t.log, a), t.auctions[a]);
    forall m | 0 <= m < |t.log| && t.log[m].bid.auction == a ensures t.log[m].validatedAt < run.states[k].clock {
      ValidationInWindow(t, m);
    }
  }

  /** Every committed bid was validated inside its auction's window, whatever its strategy. */
  lemma ValidationInWindow(s: State, k: nat)
    requires Inv(s) && k < |s.log|
    ensures s.log[k].bid.auction in s.catalog && SqlWindow(s.catalog[s.log[k].bid.auction], s.log[k].validatedAt)
    ensures SqlWindow(s.catalog[s.log[k].bid.auction], s.log[k].checkedAt)
  {
    assert EntryOk(s, k);
  }

  // ----- Retry exhaustion

  /** A command that leaves room for maxAttempts increments above the starting price is never told to give up. */
  lemma CheapBidsNeverExhaust(run: Run, i: nat, c: CallId)
    requires IsRun(run) && i < |run.states| && NoUnsafe(run.states[i])
    requires c in run.states[i].calls && run.states[i].calls[c].strategy.Optimistic?
    requires var call := run.states[i].calls[c];
             call.command.auction in run.states[i].catalog ==>
               var created := run.states[i].catalog[call.command.auction];
               call.command.amount < created.startingPrice + call.strategy.maxAttempts * created.increment
    ensures run.states[i].calls[c].pc.Done? ==>
              var o := run.states[i].calls[c].pc.outcome; !(o.Rejected? && o.reason.ConflictRetryExhausted?)
  {
    RunKeepsAll(run, i);
    var call := run.states[i].calls[c];
    if call.command.auction in run.states[i].catalog {
      assert FactsOf(run.states[i], call);
    } else {
      UnknownAuctionNeverRetries(run, i, c);
    }
  }

  /** Without an auction there is nothing to miss, and no answer but a reply or that it was not found. */
  ghost predicate BeforeAuction(call: Call) {
    && call.misses == []
    && (Answer(call.pc).Some? ==> IsReply(Answer(call.pc).value) || SaysNotFound(Answer(call.pc)))
    && (call.pc.Connecting? || call.pc.Lookup? || call.pc.Reading? || call.pc.Raised? || call.pc.Done?
        || (call.pc.Closing? && (call.pc.exit.Return? || call.pc.exit.Fail?)))
  }

  lemma {:induction false} UnknownAuctionNeverRetries(run: Run, i: nat, c: CallId)
    requires IsRun(run) && i < |run.states| && c in run.states[i].calls
    requires run.states[i].calls[c].command.auction !in run.states[i].catalog
    ensures BeforeAuction(run.states[i].calls[c])
  {
    RunKeepsInv(run, i);
    if i == 0 {
    } else {
      assert Follows(run, i - 1);
      RunGrows(run, i - 1, i);
      RunKeepsInv(run, i - 1);
      var s := run.states[i - 1];
      if c in s.calls {
        UnknownAuctionNeverRetries(run, i - 1, c);
        StepBeforeAuction(s, run.actions[i - 1], c);
      }
    }
  }

  lemma NextBeforeAuction(call: Call, view: View, id: BidId)
    requires BeforeAuction(call) && view.row.None?
    ensures BeforeAuction(Next(call, view, id))
  {
  }

  lemma StepBeforeAuction(s: State, action: Action, c: CallId)
    requires Enabled(s, action) && c in s.calls && s.calls[c].command.auction !in s.auctions
    requires BeforeAuction(s.calls[c])
    ensures BeforeAuction(Perform(s, action).calls[c])
  {
    if action.Statement? && action.call == c {
      ExecuteIsNext(s, c, action.id);
      NextBeforeAuction(s.calls[c], Sees(s, c), action.id);
    }
  }

  /** Under every strategy, a completed call that is not a reply reports the auction as not found iff it is unknown. */
  lemma NotFoundMeansUnknown(run: Run, i: nat, c: CallId)
    requires IsRun(run) && i < |run.states| && c in run.states[i].calls && run.states[i].calls[c].pc.Done?
    requires !IsReply(run.states[i].calls[c].pc.outcome)
    ensures var o := run.states[i].calls[c].pc.outcome;
            o.Rejected? && o.reason.AuctionNotFound?
            <==> run.states[i].calls[c].command.auction !in run.states[i].catalog
  {
    if SaysNotFound(Answer(run.states[i].calls[c].pc)) {
      NotFoundIsUnknown(run, i, c);
    } else if run.states[i].calls[c].command.auction !in run.states[i].catalog {
      UnknownAuctionNeverRetries(run, i, c);
    }
  }

  /** Step j of the run is call c's read of its auction in its first attempt, finding this version. */
  ghost predicate FirstRead(run: Run, j: int, c: CallId, version: int) {
    && 0 <= j < |run.actions| && j < |run.states|
    && run.actions[j].Statement? && run.actions[j].call == c
    && c in run.states[j].calls
    && var call := run.states[j].calls[c];
       && call.pc.Reading? && call.attempt == 1
       && call.command.auction in run.states[j].auctions
       && run.states[j].auctions[call.command.auction].version == version
  }

  /**
   Step j of the run is an update of call c that misses, after k earlier misses, because its guard fails on the
   newest row.
   */
  ghost predicate MissedUpdate(run: Run, j: int, c: CallId, k: nat, miss: Miss) {
    && 0 <= j < |run.actions| && j < |run.states|
    && run.actions[j].Statement? && run.actions[j].call == c
    && c in run.states[j].calls
    && var call := run.states[j].calls[c];
       && (call.pc.Updating? || call.pc.UpdateWaiting?)
       && |call.misses| == k
       && call.pc.row.version == miss.version && call.pc.now <= miss.guardedAt
       && call.command.auction in run.states[j].auctions
       && !SqlGuard(run.states[j].auctions[call.command.auction], miss.version, call.command.amount, miss.guardedAt)
  }

  /** The version a first attempt has read, while it is still known. */
  function FirstVersion(call: Call): Option<int> {
    if call.misses != [] then Some(call.misses[0].version)
    else if call.attempt != 1 || call.pc.Retiming? then None
    else if HeldRow(call.pc).Some? then Some(HeldRow(call.pc).value.version)
    else if call.pc.Closing? && call.pc.exit.Missed? then Some(call.pc.exit.miss.version)
    else None
  }

  /** The k-th miss of a call, counting one that is about to be recorded. */
  predicate HasMiss(call: Call, k: nat, miss: Miss) {
    || (k < |call.misses| && call.misses[k] == miss)
    || (k == |call.misses| && call.pc == Closing(Missed(miss)))
  }

  lemma NextFirstVersion(call: Call, view: View, id: BidId)
    requires CountsOk(call) && FirstVersion(Next(call, view, id)).Some?
    ensures FirstVersion(call) == FirstVersion(Next(call, view, id))
            || (call.pc.Reading? && call.attempt == 1 && view.row.Some?
                && FirstVersion(Next(call, view, id)) == Some(view.row.value.version))
  {
  }

  lemma StepFirstVersion(s: State, c: CallId, id: BidId)
    requires Ready(s, c) && CountsOk(s.calls[c])
    requires FirstVersion(Execute(s, c, id).calls[c]).Some?
    ensures FirstVersion(s.calls[c]) == FirstVersion(Execute(s, c, id).calls[c])
            || (s.calls[c].pc.Reading? && s.calls[c].attempt == 1 && s.calls[c].command.auction in s.auctions
                && FirstVersion(Execute(s, c, id).calls[c]) == Some(s.auctions[s.calls[c].command.auction].version))
  {
    ExecuteIsNext(s, c, id);
    NextFirstVersion(s.calls[c], Sees(s, c), id);
  }

  lemma {:induction false} FirstVersionWasRead(run: Run, i: nat, c: CallId)
    requires IsRun(run) && i < |run.states| && c in run.states[i].calls
    requires FirstVersion(run.states[i].calls[c]).Some?
    ensures exists j :: j < i && FirstRead(run, j, c, FirstVersion(run.states[i].calls[c]).value)
  {
    if i == 0 {
    } else {
      assert Follows(run, i - 1);
      var s, action := run.states[i - 1], run.actions[i - 1];
      if c in s.calls {
        RunKeepsOutcomes(run, i - 1);
        assert CallOutcome(s.log, c, s.calls[c]);
        if action.Statement? && action.call == c {
          StepFirstVersion(s, c, action.id);
        }
        if FirstVersion(s.calls[c]) == FirstVersion(run.states[i].calls[c]) {
          FirstVersionWasRead(run, i - 1, c);
        } else {
          assert FirstRead(run, i - 1, c, FirstVersion(run.states[i].calls[c]).value);
        }
      }
    }
  }

  lemma StepMiss(s: State, c: CallId, id: BidId, k: nat, miss: Miss)
    requires Ready(s, c) && CallOk(s.catalog, s.log, s.clock, s.drawn, c, s.calls[c])
    requires HasMiss(Execute(s, c, id).calls[c], k, miss)
    ensures HasMiss(s.calls[c], k, miss)
            || ((s.calls[c].pc.Updating? || s.calls[c].pc.UpdateWaiting?) && |s.calls[c].misses| == k
                && s.calls[c].pc.row.version == miss.version && s.calls[c].pc.now <= miss.guardedAt
                && !SqlGuard(s.auctions[s.calls[c].command.auction], miss.version, s.calls[c].command.amount,
                   miss.guardedAt))
  {
  }

  lemma {:induction false} MissesHappened(run: Run, i: nat, c: CallId, k: nat, miss: Miss)
    requires IsRun(run) && i < |run.states| && c in run.states[i].calls
    requires HasMiss(run.states[i].calls[c], k, miss)
    ensures exists j :: j < i && MissedUpdate(run, j, c, k, miss)
  {
    if i == 0 {
    } else {
      assert Follows(run, i - 1);
      var s, action := run.states[i - 1], run.actions[i - 1];
      if c in s.calls {
        if action.Statement? && action.call == c {
          RunKeepsInv(run, i - 1);
          StepMiss(s, c, action.id, k, miss);
        }
        if HasMiss(s.calls[c], k, miss) {
          MissesHappened(run, i - 1, c, k, miss);
        } else {
          assert MissedUpdate(run, i - 1, c, k, miss);
        }
      }
    }
  }

  /** An update that missed before the end found a newer version. */
  lemma MissBeforeEndIsConflict(run: Run, j: nat, c: CallId, k: nat, miss: Miss)
    requires IsRun(run) && MissedUpdate(run, j, c, k, miss) && NoUnsafe(run.states[j])
    requires var a := run.states[j].calls[c].command.auction;
             a in run.states[j].catalog ==> miss.guardedAt < run.states[j].catalog[a].endsAt
    ensures run.states[j].auctions[run.states[j].calls[c].command.auction].version > miss.version
  {
    var s := run.states[j];
    var call := s.calls[c];
    var a := call.command.auction;
    RunKeepsAll(run, j);
    assert CallOk(s.catalog, s.log, s.clock, s.drawn, c, call) && HeldRowOk(s.auctions, call);
    var late := if s.clock < miss.guardedAt then miss.guardedAt else s.clock;
    var amount, now := call.command.amount, call.pc.now;
    FailedGuardIsCaused(s.catalog[a], call.pc.row, s.auctions[a], amount, now, miss.guardedAt, late);
  }

  /** A call that has not been accepted has committed nothing. */
  lemma OnlyAcceptedCallsCommit(s: State, a: AuctionId, k: nat, c: CallId)
    requires Inv(s) && k < |History(s.log, a)| && c in s.calls
    requires !(s.calls[c].pc.Done? && s.calls[c].pc.outcome.Accepted?)
    ensures History(s.log, a)[k].call != c
  {
    HistoryComesFromLog(s.log, a, k);
    var m :| 0 <= m < |s.log| && s.log[m] == History(s.log, a)[k] && s.log[m].bid.auction == a;
    assert EntryOk(s, m);
  }

  /** What an exhausted call has recorded. */
  lemma ExhaustedCall(run: Run, i: nat, c: CallId)
    requires IsRun(run) && i < |run.states| && NoUnsafe(run.states[i])
    requires c in run.states[i].calls && run.states[i].calls[c].pc.Done?
    requires var o := run.states[i].calls[c].pc.outcome; o.Rejected? && o.reason.ConflictRetryExhausted?
    requires run.states[i].calls[c].command.auction in run.states[i].catalog
    ensures var call := run.states[i].calls[c];
            && call.strategy.Optimistic? && |call.misses| == call.strategy.maxAttempts > 0
            && Rising(call.misses)
            && call.misses[|call.misses| - 1].guardedAt < run.states[i].catalog[call.command.auction].endsAt
  {
    RunKeepsAll(run, i);
    assert CallOutcome(run.states[i].log, c, run.states[i].calls[c]) && FactsOf(run.states[i], run.states[i].calls[c]);
  }

  /** The length of an auction's history is its row's version. */
  lemma VersionIsHistoryLength(run: Run, i: nat, a: AuctionId)
    requires IsRun(run) && i < |run.states| && NoUnsafe(run.states[i]) && a in run.states[i].catalog
    ensures a in run.states[i].auctions && run.states[i].auctions[a].version == |History(run.states[i].log, a)|
  {
    SafeRunsRefineSequentialAuction(run, i, a);
  }

  lemma UnacceptedCallHasNoCommits(run: Run, i: nat, a: AuctionId, c: CallId)
    requires IsRun(run) && i < |run.states| && c in run.states[i].calls
    requires !(run.states[i].calls[c].pc.Done? && run.states[i].calls[c].pc.outcome.Accepted?)
    ensures forall k | 0 <= k < |History(run.states[i].log, a)| :: History(run.states[i].log, a)[k].call != c
  {
    RunKeepsInv(run, i);
    forall k | 0 <= k < |History(run.states[i].log, a)| ensures History(run.states[i].log, a)[k].call != c {
      OnlyAcceptedCallsCommit(run.states[i], a, k, c);
    }
  }

  /**
   Exhaustion needs real contention: the versions observed strictly rose at every attempt, and between the first read
   and the last missed update at least maxAttempts bids were committed on the auction, none of them by this call.
   */
  lemma ExhaustionNeedsContention(run: Run, i: nat, c: CallId) returns (first: nat, last: nat)
    requires IsRun(run) && i < |run.states| && NoUnsafe(run.states[i])
    requires c in run.states[i].calls && run.states[i].calls[c].pc.Done?
    requires var o := run.states[i].calls[c].pc.outcome; o.Rejected? && o.reason.ConflictRetryExhausted?
    ensures var call := run.states[i].calls[c]; var a := call.command.auction;
            && call.strategy.Optimistic? && |call.misses| == call.strategy.maxAttempts > 0
            && (forall m, n | 0 <= m < n < |call.misses| :: call.misses[m].version < call.misses[n].version)
            && first < last < i
            && FirstRead(run, first, c, call.misses[0].version)
            && MissedUpdate(run, last, c, |call.misses| - 1, call.misses[|call.misses| - 1])
            && |History(run.states[last].log, a)| >= |History(run.states[first].log, a)| + call.strategy.maxAttempts
            && forall k | 0 <= k < |History(run.states[last].log, a)| :: History(run.states[last].log, a)[k].call != c
  {
    var call := run.states[i].calls[c];
    var a := call.command.auction;
    var n := |call.misses|;
    NotFoundMeansUnknown(run, i, c);
    ExhaustedCall(run, i, c);
    FirstVersionWasRead(run, i, c);
    first :| first < i && FirstRead(run, first, c, call.misses[0].version);
    MissesHappened(run, i, c, n - 1, call.misses[n - 1]);
    last :| last < i && MissedUpdate(run, last, c, n - 1, call.misses[n - 1]);
    RunGrows(run, first, i);
    RunGrows(run, last, i);
    MissBeforeEndIsConflict(run, last, c, n - 1, call.misses[n - 1]);
    RisingCounts(call.misses, n - 1);
    VersionIsHistoryLength(run, first, a);
    VersionIsHistoryLength(run, last, a);
    if last <= first {
      RowsMoveForward(run, last, first, a);
    }
    UnacceptedCallHasNoCommits(run, last, a, c);
  }
}
