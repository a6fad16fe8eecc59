/**
 Linearizability of any mix of calls in which no two commits on an auction share a version, which all mixes of the two
 safe strategies are, up to the counts of attempts and conflicts. Acceptances take effect at their commit; rejections by
 the rules at the read of the row they were judged on, at the clock value read after it; replies and unknown auctions at
 the last look for the request id. Only calls that gave up and misjudged duplicates are left out.
 */
module MixedLinearizability {
  import opened Wrappers
  import opened Models
  import opened Transactions
  import opened BaseInvariant
  import opened Preservation
  import opened Progress
  import opened RunSteps
  import opened LocalSteps
  import opened SafeRefinement
  import opened Outcomes
  import opened Lookups
  import opened Rejections
  import opened UnsharedRuns
  import opened Linearizability

  // ----- Which calls have a place in a sequential history

  /** The outcome without its counts. */
  function Plain(o: Outcome): Outcome {
    match o
    case Accepted(bid, _, _) => Accepted(bid, 1, 0)
    case Replayed(bid, _, _) => Replayed(bid, 1, 0)
    case Rejected(reason, minimum, _, _) => Rejected(reason, minimum, 1, 0)
  }

  predicate IsCompleted(s: State, c: CallId) {
    c in s.calls && s.calls[c].pc.Done?
  }

  predicate GaveUp(o: Outcome) {
    o.Rejected? && o.reason.ConflictRetryExhausted?
  }

  /** The call was rejected by the rules on a row that it read when a bid with its request id was already committed. */
  ghost predicate Misjudged(run: Run, c: CallId)
    requires run.states != [] && IsCompleted(Last(run), c)
  {
    var call := Last(run).calls[c];
    Refusal(call.pc).Some? && exists j, k, row, now :: JudgedLate(run, c, call, j, k, row, now)
  }

  ghost predicate JudgedLate(run: Run, c: CallId, call: Call, j: int, k: int, row: Auction, now: Instant)
    requires Refusal(call.pc).Some?
  {
    && RowThenTime(run, j, k, c, row, now) && Refuses(row, call.command.amount, now, Refusal(call.pc).value)
    && Seen(run, j, call.command).Some?
  }

  // ----- The step at which a call that is not accepted takes effect

  ghost predicate ClockMet(run: Run, c: CallId, now: Instant) {
    exists k :: InFlight(run, k, c) && run.states[k].clock == now
  }

  /** At step j, with a clock value read inside the call, the sequential object gives the call's answer. */
  ghost predicate Verdict(run: Run, c: CallId, j: int, now: Instant)
    requires run.states != []
  {
    && IsCompleted(Last(run), c) && StatementOf(run, j, c) && ClockMet(run, c, now)
    && var call := Last(run).calls[c];
       && !call.pc.outcome.Accepted?
       && Serve(TablesOf(run.states[j]), call.command, now, 0, 0)
          == Some((TablesOf(run.states[j]), Plain(call.pc.outcome)))
  }

  ghost predicate HasVerdict(run: Run, c: CallId)
    requires run.states != []
  {
    exists j, now :: Verdict(run, c, j, now)
  }

  /** A reply takes effect at the last look. */
  lemma ReplyHasVerdict(run: Run, c: CallId)
    requires IsRun(run) && IsCompleted(Last(run), c) && IsReply(Last(run).calls[c].pc.outcome)
    ensures HasVerdict(run, c)
  {
    var n := |run.states| - 1;
    var j := RepliesAreWhatLastLooksFound(run, n, c);
    RunGrows(run, j, n);
    FindBidIsExisting(run.states[j].log, Last(run).calls[c].command.request);
    assert InFlight(run, j, c);
    assert Verdict(run, c, j, run.states[j].clock);
  }

  /** So does the answer that an auction is unknown. */
  lemma UnknownAuctionHasVerdict(run: Run, c: CallId)
    requires IsRun(run) && IsCompleted(Last(run), c) && SaysNotFound(Answer(Last(run).calls[c].pc))
    ensures HasVerdict(run, c)
  {
    var n := |run.states| - 1;
    var j := RepliesAreWhatLastLooksFound(run, n, c);
    RunGrows(run, j, n);
    RunKeepsInv(run, j);
    NotFoundIsUnknown(run, n, c);
    FindBidIsExisting(run.states[j].log, Last(run).calls[c].command.request);
    assert InFlight(run, j, c);
    assert Verdict(run, c, j, run.states[j].clock);
  }

  /** Between its read of the row and its next look for the request id a pessimistic call cannot be answered. */
  lemma {:induction false} LockedReadIsRechecked(run: Run, j: nat, n: nat, c: CallId, row: Auction)
    requires IsRun(run) && RowRead(run, j, c, row) && run.states[j].calls[c].strategy.Pessimistic?
    requires run.states[j].calls[c].pc.Reading? && j < n < |run.states|
    requires forall k | j < k < n :: !LookAt(run, k, c)
    ensures c in run.states[n].calls && run.states[n].calls[c].strategy.Pessimistic?
    ensures var pc := run.states[n].calls[c].pc;
            pc.Timing? || pc.Rechecking? || pc.Raised? || (pc.Closing? && pc.exit.Fail?)
  {
    assert Follows(run, n - 1);
    RunGrows(run, n - 1, n);
    if n == j + 1 {
    } else {
      LockedReadIsRechecked(run, j, n - 1, c, row);
      assert !LookAt(run, n - 1, c);
    }
  }

  /** A pessimistic call that is not a reply had no committed bid with its request id when it read its row. */
  lemma LockedReadIsEarly(run: Run, c: CallId, j: nat, row: Auction)
    requires IsRun(run) && IsCompleted(Last(run), c) && !IsReply(Last(run).calls[c].pc.outcome)
    requires Last(run).calls[c].strategy.Pessimistic? && RowRead(run, j, c, row)
    ensures Seen(run, j, Last(run).calls[c].command).None?
  {
    var n := |run.states| - 1;
    RunGrows(run, j, n);
    RunKeepsOutcomes(run, j);
    assert CallOutcome(run.states[j].log, c, run.states[j].calls[c]);
    var l := RepliesAreWhatLastLooksFound(run, n, c);
    if l <= j {
      assert forall k | j < k < n :: !LookAt(run, k, c);
      LockedReadIsRechecked(run, j, n, c, row);
      assert false;
    } else {
      ExistingBidOnlyAppears(run, j, l, Last(run).calls[c].command.request);
    }
  }

  lemma ExistingBidOnlyAppears(run: Run, i: nat, j: nat, r: RequestId)
    requires IsRun(run) && i <= j < |run.states| && ExistingBid(run.states[j].log, r).None?
    ensures ExistingBid(run.states[i].log, r).None?
  {
    RunGrows(run, i, j);
    FindCommitFinds(run.states[i].log, r);
    FindCommitFinds(run.states[j].log, r);
  }

  /** The sequential object refuses what the rule refuses on a row with no bid for the request id. */
  lemma RefusalIsServed(s: State, command: Command, now: Instant, refusal: (RejectionReason, Option<int>))
    requires command.auction in s.auctions && Refuses(s.auctions[command.auction], command.amount, now, refusal)
    requires ExistingBid(s.log, command.request).None?
    ensures Serve(TablesOf(s), command, now, 0, 0) == Some((TablesOf(s), Rejected(refusal.0, refusal.1, 1, 0)))
  {
    FindBidIsExisting(s.log, command.request);
  }

  /** A rejection by the rules takes effect at the read of the row, unless its request id was committed by then. */
  lemma RefusalHasVerdict(run: Run, c: CallId)
    requires IsRun(run) && IsCompleted(Last(run), c) && Refusal(Last(run).calls[c].pc).Some? && !Misjudged(run, c)
    ensures HasVerdict(run, c)
  {
    var n := |run.states| - 1;
    var call := Last(run).calls[c];
    RejectionsAreJustified(run, n, c);
    var j, k, row, now :|
      k < n && RowThenTime(run, j, k, c, row, now) && Refuses(row, call.command.amount, now, Refusal(call.pc).value);
    RunGrows(run, j, n);
    assert !JudgedLate(run, c, call, j, k, row, now);
    RefusalIsServed(run.states[j], call.command, now, Refusal(call.pc).value);
    assert ClockMet(run, c, now);
    assert Verdict(run, c, j, now);
  }

  /** Every completed call that was not accepted, did not give up and was not misjudged has a verdict. */
  lemma CompletedHasVerdict(run: Run, c: CallId)
    requires IsRun(run) && IsCompleted(Last(run), c) && !Misjudged(run, c)
    requires !Last(run).calls[c].pc.outcome.Accepted? && !GaveUp(Last(run).calls[c].pc.outcome)
    ensures HasVerdict(run, c)
  {
    var o := Last(run).calls[c].pc.outcome;
    if IsReply(o) {
      ReplyHasVerdict(run, c);
    } else if o.reason.AuctionNotFound? {
      UnknownAuctionHasVerdict(run, c);
    } else {
      RefusalHasVerdict(run, c);
    }
  }

  // ----- The history

  ghost function Chosen(run: Run, c: CallId): (at: (int, Instant))
    requires run.states != [] && HasVerdict(run, c)
    ensures Verdict(run, c, at.0, at.1)
  {
    var j, now :| Verdict(run, c, j, now);
    (j, now)
  }

  ghost function VerdictEvent(run: Run, c: CallId): Event
    requires run.states != [] && HasVerdict(run, c)
  {
    var at := Chosen(run, c);
    Event(c, Last(run).calls[c].command, at.1, 0, 0, Plain(Last(run).calls[c].pc.outcome), at.0)
  }

  function CommitEvent(call: Call, c: CallId, at: nat): Event
    requires call.pc.Committing?
  {
    Event(c, call.command, call.pc.guardedAt, call.pc.bid.id, call.pc.bid.acceptedAt, Accepted(call.pc.bid, 1, 0), at)
  }

  /** The effect of step k of the run, if it has one. */
  ghost function Effect(run: Run, k: nat): seq<Event>
    requires run.states != []
  {
    if k >= |run.actions| || !run.actions[k].Statement? || !StatementOf(run, k, run.actions[k].call) then []
    else
      var c := run.actions[k].call;
      if run.states[k].calls[c].pc.Committing? then [CommitEvent(run.states[k].calls[c], c, k)]
      else if HasVerdict(run, c) && Chosen(run, c).0 == k then [VerdictEvent(run, c)]
      else []
  }

  ghost function Effects(run: Run): (effects: seq<seq<Event>>)
    requires run.states != []
    ensures |effects| == |run.actions| && forall k | 0 <= k < |effects| :: effects[k] == Effect(run, k)
  {
    seq(|run.actions|, k requires 0 <= k < |run.actions| => Effect(run, k))
  }

  function Joined(effects: seq<seq<Event>>): seq<Event> {
    if effects == [] then [] else Joined(effects[..|effects| - 1]) + effects[|effects| - 1]
  }

  // ----- The history is served

  /** The sequential object answers the one effect and ends in these tables; without an effect nothing changes. */
  ghost predicate Serves(before: Tables, effect: seq<Event>, after: Tables) {
    if effect == [] then after == before
    else
      && |effect| == 1
      && var e := effect[0];
         Serve(before, e.command, e.now, e.id, e.acceptedAt) == Some((after, e.outcome))
  }

  lemma QuietStepServes(run: Run, k: nat)
    requires IsRun(run) && k < |run.actions|
    requires var action := run.actions[k];
             action.Statement? && action.call in run.states[k].calls ==>
                 !run.states[k].calls[action.call].pc.Committing?
    ensures Serves(TablesOf(run.states[k]), Effect(run, k), TablesOf(run.states[k + 1]))
  {
    assert Follows(run, k);
    assert TablesOf(run.states[k + 1]) == TablesOf(run.states[k]);
  }

  lemma EffectIsServed(run: Run, k: nat)
    requires IsRun(run) && k < |run.actions| && Unshared(Last(run))
    ensures Serves(TablesOf(run.states[k]), Effect(run, k), TablesOf(run.states[k + 1]))
  {
    var s := run.states[k];
    assert Follows(run, k);
    if run.actions[k].Statement? && s.calls[run.actions[k].call].pc.Committing? {
      EarlierIsUnshared(run, k + 1, |run.states| - 1);
      RunKeepsInv(run, k);
      CommitChecksNewestRow(run, k, run.actions[k].call);
      CommitIsServed(s, run.actions[k].call);
    } else {
      QuietStepServes(run, k);
    }
  }

  lemma ServeOneMore(start: Tables, events: seq<Event>, before: Tables, effect: seq<Event>, after: Tables)
    requires ServeAll(start, events) == Some(before) && Serves(before, effect, after)
    ensures ServeAll(start, events + effect) == Some(after)
  {
    if effect == [] {
      assert events + effect == events;
    } else {
      FrontOfAppend(events, effect[0]);
      assert events + effect == events + [effect[0]];
    }
  }

  lemma {:induction false} JoinedIsServed(effects: seq<seq<Event>>, tables: seq<Tables>)
    requires |tables| == |effects| + 1
    requires forall k | 0 <= k < |effects| :: Serves(tables[k], effects[k], tables[k + 1])
    ensures ServeAll(tables[0], Joined(effects)) == Some(tables[|effects|])
  {
    if effects == [] {
    } else {
      var n := |effects| - 1;
      JoinedIsServed(effects[..n], tables[..n + 1]);
      ServeOneMore(tables[0], Joined(effects[..n]), tables[n], effects[n], tables[n + 1]);
    }
  }

  lemma EffectsAreServed(run: Run)
    requires IsRun(run) && Unshared(Last(run))
    ensures ServeAll(TablesOf(run.states[0]), Joined(Effects(run))) == Some(TablesOf(Last(run)))
  {
    var n := |run.actions|;
    var tables := seq(n + 1, k requires 0 <= k <= n => TablesOf(run.states[k]));
    forall k | 0 <= k < n ensures Serves(tables[k], Effects(run)[k], tables[k + 1]) {
      EffectIsServed(run, k);
    }
    JoinedIsServed(Effects(run), tables);
  }

  // ----- The history is in the order of the steps

  /** Effects that are stamped with their own position, at most one at each. */
  ghost predicate Stamped(effects: seq<seq<Event>>) {
    forall k | 0 <= k < |effects| :: |effects[k]| <= 1 && (effects[k] != [] ==> effects[k][0].at == k)
  }

  ghost predicate Placed(effects: seq<seq<Event>>, e: Event) {
    e.at < |effects| && effects[e.at] == [e]
  }

  ghost predicate InOrder(effects: seq<seq<Event>>, h: seq<Event>) {
    && (forall k | 0 <= k < |h| :: Placed(effects, h[k]))
    && (forall j, k | 0 <= j < k < |h| :: h[j].at < h[k].at)
  }

  lemma {:induction false} JoinedIsOrdered(effects: seq<seq<Event>>)
    requires Stamped(effects)
    ensures InOrder(effects, Joined(effects))
  {
    if effects == [] {
    } else {
      var n := |effects| - 1;
      var front, h := Joined(effects[..n]), Joined(effects);
      JoinedIsOrdered(effects[..n]);
      assert h == front + effects[n];
      forall k | 0 <= k < |h| ensures Placed(effects, h[k]) && (if k < |front| then h[k].at < n else h[k].at == n) {
        if k < |front| {
          assert h[k] == front[k] && Placed(effects[..n], front[k]);
        } else {
          assert h[k] == effects[n][k - |front|];
        }
      }
    }
  }

  // ----- Every call has at most one effect

  ghost predicate EffectOf(effect: seq<Event>, c: CallId) {
    effect != [] && effect[0].call == c
  }

  lemma {:induction false} OnlyEffectIsOwn(effects: seq<seq<Event>>, c: CallId, k: int)
    requires Stamped(effects)
    requires forall j | 0 <= j < |effects| && j != k :: !EffectOf(effects[j], c)
    ensures EventsBy(Joined(effects), c) == if 0 <= k < |effects| && EffectOf(effects[k], c) then effects[k] else []
  {
    if effects == [] {
    } else {
      var n := |effects| - 1;
      OnlyEffectIsOwn(effects[..n], c, k);
      if effects[n] == [] {
        assert Joined(effects) == Joined(effects[..n]);
      } else {
        assert effects[n] == [effects[n][0]];
        EventsByAppend(Joined(effects[..n]), effects[n][0], c);
      }
    }
  }

  lemma AcceptedCallCommitted(run: Run, c: CallId) returns (k: nat)
    requires IsRun(run) && IsCompleted(Last(run), c) && Last(run).calls[c].pc.outcome.Accepted?
    ensures k < |run.actions| && CommitStep(run, k, c)
  {
    var n := |run.states| - 1;
    RunKeepsOutcomes(run, n);
    assert CallOutcome(Last(run).log, c, Last(run).calls[c]);
    var m :| 0 <= m < |Last(run).log| && Last(run).log[m].call == c;
    k := LoggedCallCommitted(run, n, m);
  }

  /** Once a call is over, an effect of it is its commit, if it was accepted, and its verdict otherwise. */
  lemma EffectOfCall(run: Run, j: nat, c: CallId)
    requires IsRun(run) && j < |run.actions| && EffectOf(Effect(run, j), c)
    ensures CommitStep(run, j, c) || (HasVerdict(run, c) && Chosen(run, c).0 == j)
    ensures CommitStep(run, j, c) ==> IsCompleted(Last(run), c) && Last(run).calls[c].pc.outcome.Accepted?
  {
    if CommitStep(run, j, c) {
      CommitEndsCall(run, j, c, |run.states| - 1);
    }
  }

  /** The call appears exactly once, with its own command and its outcome up to counts. */
  ghost predicate AppearsPlainly(s: State, h: seq<Event>, c: CallId)
    requires IsCompleted(s, c)
  {
    var own := EventsBy(h, c);
    |own| == 1 && own[0].outcome == Plain(s.calls[c].pc.outcome) && own[0].command == s.calls[c].command
  }

  lemma EffectsAreStamped(run: Run)
    requires IsRun(run)
    ensures Stamped(Effects(run))
  {
  }

  lemma AcceptedCallAppears(run: Run, c: CallId)
    requires IsRun(run) && IsCompleted(Last(run), c) && Last(run).calls[c].pc.outcome.Accepted?
    ensures AppearsPlainly(Last(run), Joined(Effects(run)), c)
  {
    var k := AcceptedCallCommitted(run, c);
    EffectsAreStamped(run);
    forall j | 0 <= j < |run.actions| && j != k ensures !EffectOf(Effects(run)[j], c) {
      if EffectOf(Effect(run, j), c) {
        EffectOfCall(run, j, c);
        CommitEndsCall(run, if j < k then j else k, c, if j < k then k else j);
        assert false;
      }
    }
    OnlyEffectIsOwn(Effects(run), c, k);
    CommitEndsCall(run, k, c, |run.states| - 1);
    RunGrows(run, k, |run.states| - 1);
  }

  lemma JudgedCallAppears(run: Run, c: CallId)
    requires IsRun(run) && HasVerdict(run, c)
    ensures IsCompleted(Last(run), c) && AppearsPlainly(Last(run), Joined(Effects(run)), c)
  {
    var k := Chosen(run, c).0;
    EffectsAreStamped(run);
    forall j | 0 <= j < |run.actions| && j != k ensures !EffectOf(Effects(run)[j], c) {
      if EffectOf(Effect(run, j), c) {
        EffectOfCall(run, j, c);
        assert false;
      }
    }
    if CommitStep(run, k, c) {
      CommitEndsCall(run, k, c, |run.states| - 1);
      assert false;
    }
    OnlyEffectIsOwn(Effects(run), c, k);
  }

  lemma OtherCallsDoNotAppear(run: Run, c: CallId)
    requires IsRun(run) && !HasVerdict(run, c)
    requires !(IsCompleted(Last(run), c) && Last(run).calls[c].pc.outcome.Accepted?)
    ensures EventsBy(Joined(Effects(run)), c) == []
  {
    EffectsAreStamped(run);
    forall j | 0 <= j < |run.actions| ensures !EffectOf(Effects(run)[j], c) {
      if EffectOf(Effect(run, j), c) {
        EffectOfCall(run, j, c);
        assert false;
      }
    }
    OnlyEffectIsOwn(Effects(run), c, -1);
  }

  // ----- Times lie inside the calls

  /** The time of the guard of an optimistic update, once it is taken. */
  function GuardTime(call: Call): Option<Instant> {
    match call.pc
    case UpdateWaiting(_, _, _, guardedAt) => Some(guardedAt)
    case Committing(_, _, _, guardedAt, _) => if call.strategy.Optimistic? then Some(guardedAt) else None
    case _ => None
  }

  lemma NextGuardTime(call: Call, view: View, id: BidId)
    requires GuardTime(Next(call, view, id)).Some?
    ensures GuardTime(Next(call, view, id)) == GuardTime(call)
            || (call.pc.Updating? && GuardTime(Next(call, view, id)) == Some(view.clock))
  {
  }

  lemma StepGuardTime(s: State, c: CallId, id: BidId)
    requires Ready(s, c) && GuardTime(Execute(s, c, id).calls[c]).Some?
    ensures GuardTime(Execute(s, c, id).calls[c]) == GuardTime(s.calls[c])
            || (s.calls[c].pc.Updating? && GuardTime(Execute(s, c, id).calls[c]) == Some(s.clock))
  {
    ExecuteIsNext(s, c, id);
    NextGuardTime(s.calls[c], Sees(s, c), id);
  }

  lemma {:induction false} GuardTimeWasMet(run: Run, i: nat, c: CallId)
    requires IsRun(run) && i < |run.states| && c in run.states[i].calls && GuardTime(run.states[i].calls[c]).Some?
    ensures ClockMet(run, c, GuardTime(run.states[i].calls[c]).value)
  {
    if i == 0 {
      assert false;
    } else {
      assert Follows(run, i - 1);
      var s, action := run.states[i - 1], run.actions[i - 1];
      assert c in s.calls;
      if action.Statement? && action.call == c {
        StepGuardTime(s, c, action.id);
      }
      if GuardTime(s.calls[c]) == GuardTime(run.states[i].calls[c]) {
        GuardTimeWasMet(run, i - 1, c);
      } else {
        assert InFlight(run, i - 1, c);
      }
    }
  }

  lemma CommitTimeWasMet(run: Run, k: nat, c: CallId)
    requires IsRun(run) && CommitStep(run, k, c)
    ensures ClockMet(run, c, run.states[k].calls[c].pc.guardedAt)
  {
    var s := run.states[k];
    if s.calls[c].strategy.Optimistic? {
      GuardTimeWasMet(run, k, c);
    } else {
      RunKeepsInv(run, k);
      assert CallOk(s.catalog, s.log, s.clock, s.drawn, c, s.calls[c]);
      HeldTimeWasMet(run, k, c);
    }
  }

  /**
   The effect lies at a statement of its call, which is still under way, and its clock value was met inside the
   call.
   */
  ghost predicate InsideOwnCall(run: Run, e: Event) {
    StatementOf(run, e.at, e.call) && ClockMet(run, e.call, e.now)
  }

  lemma EffectIsInside(run: Run, k: nat)
    requires IsRun(run) && k < |run.actions| && Effect(run, k) != []
    ensures InsideOwnCall(run, Effect(run, k)[0])
  {
    var c := run.actions[k].call;
    if run.states[k].calls[c].pc.Committing? {
      CommitTimeWasMet(run, k, c);
    }
  }

  // ----- Main results

  /**
   A sequential history of the run: legal, in the order of effects, each effect and its clock value inside its call.
   */
  ghost predicate IsHistory(run: Run, h: seq<Event>)
    requires run.states != []
  {
    && ServeAll(TablesOf(run.states[0]), h) == Some(TablesOf(Last(run)))
    && (forall k | 0 <= k < |h| :: InsideOwnCall(run, h[k]))
    && (forall j, k | 0 <= j < k < |h| :: h[j].at < h[k].at)
  }

  lemma EffectsAreHistory(run: Run)
    requires IsRun(run) && Unshared(Last(run))
    ensures IsHistory(run, Joined(Effects(run)))
  {
    var h := Joined(Effects(run));
    EffectsAreServed(run);
    EffectsAreStamped(run);
    JoinedIsOrdered(Effects(run));
    forall k | 0 <= k < |h| ensures InsideOwnCall(run, h[k]) {
      assert Placed(Effects(run), h[k]);
      EffectIsInside(run, h[k].at);
    }
  }

  /** Whether a call must have a place in the history. */
  ghost predicate MustAppear(run: Run, c: CallId)
    requires run.states != []
  {
    IsCompleted(Last(run), c) && !GaveUp(Last(run).calls[c].pc.outcome) && !Misjudged(run, c)
  }

  /**
   Every run of any mix of calls without a shared version is linearizable up to counts but for the calls that gave up
   and
   the misjudged duplicates: there is a history that the sequential object serves, ending in the committed tables, in
   which every other completed call appears exactly once with its own command and outcome, at a statement of the call
   and
   with a clock value met inside the call; whatever appears is completed and appears once.
   */
  lemma UnsharedRunsAreLinearizable(run: Run) returns (h: seq<Event>)
    requires IsRun(run) && Unshared(Last(run))
    ensures IsHistory(run, h)
    ensures forall c | MustAppear(run, c) :: AppearsPlainly(Last(run), h, c)
    ensures forall c :: EventsBy(h, c) == [] || (IsCompleted(Last(run), c) && AppearsPlainly(Last(run), h, c))
  {
    h := Joined(Effects(run));
    EffectsAreHistory(run);
    forall c
      ensures MustAppear(run, c) ==> AppearsPlainly(Last(run), h, c)
      ensures EventsBy(h, c) == [] || (IsCompleted(Last(run), c) && AppearsPlainly(Last(run), h, c))
    {
      if IsCompleted(Last(run), c) && Last(run).calls[c].pc.outcome.Accepted? {
        AcceptedCallAppears(run, c);
      } else if HasVerdict(run, c) {
        JudgedCallAppears(run, c);
      } else {
        OtherCallsDoNotAppear(run, c);
        if MustAppear(run, c) {
          CompletedHasVerdict(run, c);
        }
      }
    }
  }

  /** In particular every run of safe calls, mixed in any way. */
  lemma SafeRunsAreLinearizable(run: Run) returns (h: seq<Event>)
    requires IsRun(run) && NoUnsafe(Last(run))
    ensures IsHistory(run, h)
    ensures forall c | MustAppear(run, c) :: AppearsPlainly(Last(run), h, c)
    ensures forall c :: EventsBy(h, c) == [] || (IsCompleted(Last(run), c) && AppearsPlainly(Last(run), h, c))
  {
    SafeIsUnshared(run, |run.states| - 1);
    h := UnsharedRunsAreLinearizable(run);
  }

  /** No other call has this call's request id. */
  ghost predicate UnsharedRequest(s: State, c: CallId)
    requires c in s.calls
  {
    forall d | d in s.calls && d != c :: s.calls[d].command.request != s.calls[c].command.request
  }

  lemma CommittedRequestHasOwner(run: Run, i: nat, r: RequestId) returns (d: CallId)
    requires IsRun(run) && i < |run.states| && ExistingBid(run.states[i].log, r).Some?
    ensures IsCompleted(run.states[i], d) && run.states[i].calls[d].command.request == r
  {
    var s := run.states[i];
    RunKeepsInv(run, i);
    FindCommitFinds(s.log, r);
    var k :| 0 <= k < |s.log| && s.log[k].bid.request == r;
    assert EntryOk(s, k);
    d := s.log[k].call;
  }

  /** A call whose request id no other call shares is never misjudged. */
  lemma UnsharedRequestIsNotMisjudged(run: Run, c: CallId)
    requires IsRun(run) && IsCompleted(Last(run), c) && UnsharedRequest(Last(run), c)
    ensures !Misjudged(run, c)
  {
    if Misjudged(run, c) {
      var j, k, row, now :| JudgedLate(run, c, Last(run).calls[c], j, k, row, now);
      RunGrows(run, j, |run.states| - 1);
      var d := CommittedRequestHasOwner(run, j, Last(run).calls[c].command.request);
      assert false;
    }
  }

  /** Nor is a pessimistic call. */
  lemma PessimisticIsNotMisjudged(run: Run, c: CallId)
    requires IsRun(run) && IsCompleted(Last(run), c) && Last(run).calls[c].strategy.Pessimistic?
    ensures !Misjudged(run, c)
  {
    if Misjudged(run, c) {
      var j, k, row, now :| JudgedLate(run, c, Last(run).calls[c], j, k, row, now);
      LockedReadIsEarly(run, c, j, row);
      assert false;
    }
  }

  /**
   In safe runs where no two calls share a request id, every completed call that did not give up is in the history.
   */
  lemma DistinctRequestsAreLinearizable(run: Run) returns (h: seq<Event>)
    requires IsRun(run) && NoUnsafe(Last(run))
    requires forall c | c in Last(run).calls :: UnsharedRequest(Last(run), c)
    ensures IsHistory(run, h)
    ensures forall c | IsCompleted(Last(run), c) && !GaveUp(Last(run).calls[c].pc.outcome) ::
            AppearsPlainly(Last(run), h, c)
    ensures forall c :: EventsBy(h, c) == [] || (IsCompleted(Last(run), c) && AppearsPlainly(Last(run), h, c))
  {
    h := SafeRunsAreLinearizable(run);
    forall c | IsCompleted(Last(run), c) && !GaveUp(Last(run).calls[c].pc.outcome)
      ensures AppearsPlainly(Last(run), h, c)
    {
      UnsharedRequestIsNotMisjudged(run, c);
      assert MustAppear(run, c);
    }
  }
}
