/**
 Runs that exhibit what the strategies do not promise: lost updates of any size, a pessimistic bid stamped after the
 end, an optimistic duplicate told its bid is too low, and a deadlock of mixed strategies.
 */
module Witnesses {
  import opened Wrappers
  import opened Models
  import opened Rules
  import opened Checker
  import opened Transactions
  import opened BaseInvariant
  import opened Preservation
  import opened Progress
  import opened Deadlock
  import opened Linearizability
  import opened MixedLinearizability
  import opened NoHistory

  // ----- Pieces of runs

  lemma Advance(run: Run, c: CallId, id: BidId) returns (next: Run)
    requires IsRun(run) && Enabled(Last(run), Statement(c, id))
    ensures IsRun(next) && Last(next) == Execute(Last(run), c, id)
  {
    next := Extended(run, Statement(c, id));
    ExtendedIsRun(run, Statement(c, id));
  }

  // One statement at a time.

  lemma AdvanceRead(run: Run, c: CallId) returns (next: Run)
    requires IsRun(run) && Ready(Last(run), c) && Last(run).calls[c].pc.Reading?
    ensures IsRun(next) && Last(next) == ReadAuction(Last(run), c)
  {
    next := Advance(run, c, 0);
  }

  lemma AdvanceTime(run: Run, c: CallId) returns (next: Run)
    requires IsRun(run) && Ready(Last(run), c) && Last(run).calls[c].pc.Timing?
    ensures IsRun(next) && Last(next) == ReadClock(Last(run), c)
  {
    next := Advance(run, c, 0);
  }

  lemma AdvanceRecheck(run: Run, c: CallId) returns (next: Run)
    requires IsRun(run) && Ready(Last(run), c) && Last(run).calls[c].pc.Rechecking?
    ensures IsRun(next) && Last(next) == Recheck(Last(run), c)
  {
    next := Advance(run, c, 0);
  }

  lemma AdvanceInsert(run: Run, c: CallId, id: BidId) returns (next: Run)
    requires IsRun(run) && Ready(Last(run), c) && Last(run).calls[c].pc.Inserting? && id !in Last(run).drawn
    ensures IsRun(next) && Last(next) == IssueInsert(Last(run), c, id)
  {
    next := Advance(run, c, id);
  }

  lemma AdvanceEnter(run: Run, c: CallId) returns (next: Run)
    requires IsRun(run) && Ready(Last(run), c) && Last(run).calls[c].pc.InsertWaiting?
    ensures IsRun(next) && Last(next) == FinishInsert(Last(run), c)
  {
    next := Advance(run, c, 0);
  }

  lemma AdvanceUpdate(run: Run, c: CallId) returns (next: Run)
    requires IsRun(run) && Ready(Last(run), c) && Last(run).calls[c].pc.Updating?
    ensures IsRun(next) && Last(next) == IssueUpdate(Last(run), c)
  {
    next := Advance(run, c, 0);
  }

  lemma AdvanceGuard(run: Run, c: CallId) returns (next: Run)
    requires IsRun(run) && Ready(Last(run), c) && Last(run).calls[c].pc.UpdateWaiting?
    ensures IsRun(next) && Last(next) == FinishUpdate(Last(run), c)
  {
    next := Advance(run, c, 0);
  }

  lemma AdvanceCommit(run: Run, c: CallId) returns (next: Run)
    requires IsRun(run) && Ready(Last(run), c) && Last(run).calls[c].pc.Committing?
    ensures IsRun(next) && Last(next) == CommitBid(Last(run), c)
  {
    next := Advance(run, c, 0);
  }

  /** A new call connects and does not find its request id. */
  lemma BeginAndLookUp(run: Run, c: CallId, strategy: Strategy, command: Command) returns (next: Run)
    requires IsRun(run) && c !in Last(run).calls && ValidStrategy(strategy) && ValidCommand(command)
    requires |Last(run).connections| < Last(run).poolSize && ExistingBid(Last(run).log, command.request).None?
    ensures IsRun(next)
    ensures Last(next) == Last(run).(connections := Last(run).connections + {c},
                                     calls := Last(run).calls[c := Call(strategy, command, 1, [], Reading)])
  {
    var begin := Begin(c, strategy, command);
    ExtendedIsRun(run, begin);
    var s := Last(Extended(run, begin));
    next := Advance(Extended(run, begin), c, 0);
    assert Last(next) == Connect(s, c);
    next := Advance(next, c, 0);
    assert Last(next) == LookUpRequest(Connect(s, c), c);
  }

  /** A call without a lock reads its auction and the clock, and evaluates its bid. */
  lemma ReadAndDecide(run: Run, c: CallId) returns (next: Run)
    requires IsRun(run) && c in Last(run).calls && Last(run).calls[c].pc.Reading?
    requires !Last(run).calls[c].strategy.Pessimistic?
    requires Last(run).calls[c].command.auction in Last(run).auctions
    ensures IsRun(next)
    ensures var s := Last(run); var row := s.auctions[s.calls[c].command.auction];
            Last(next) == Goto(s, c, Decide(s.calls[c], row, s.clock))
  {
    next := AdvanceRead(run, c);
    next := AdvanceTime(next, c);
  }

  /** A pessimistic call locks its auction's row and reads the clock. */
  lemma LockAndTime(run: Run, c: CallId) returns (next: Run)
    requires IsRun(run) && c in Last(run).calls && Last(run).calls[c].pc.Reading?
    requires Last(run).calls[c].strategy.Pessimistic?
    requires Last(run).calls[c].command.auction in Last(run).auctions
    requires Last(run).calls[c].command.auction !in Last(run).locks
    ensures IsRun(next)
    ensures var s := Last(run); var a := s.calls[c].command.auction;
            Last(next) == Goto(s, c, Rechecking(s.auctions[a], s.clock)).(locks := s.locks[a := c])
  {
    next := AdvanceRead(run, c);
    next := AdvanceTime(next, c);
  }

  /** A pessimistic call under its lock looks again for its request id and evaluates its bid. */
  lemma LockAndDecide(run: Run, c: CallId) returns (next: Run)
    requires IsRun(run) && c in Last(run).calls && Last(run).calls[c].pc.Reading?
    requires Last(run).calls[c].strategy.Pessimistic?
    requires Last(run).calls[c].command.auction in Last(run).auctions
    requires Last(run).calls[c].command.auction !in Last(run).locks
    requires ExistingBid(Last(run).log, Last(run).calls[c].command.request).None?
    ensures IsRun(next)
    ensures var s := Last(run); var a := s.calls[c].command.auction;
            Last(next) == Goto(s, c, Decide(s.calls[c], s.auctions[a], s.clock)).(locks := s.locks[a := c])
  {
    next := LockAndTime(run, c);
    next := AdvanceRecheck(next, c);
  }

  lemma InsertLands(s: State, c: CallId, id: BidId)
    requires c in s.calls && s.calls[c].pc.Inserting? && s.calls[c].command.request !in s.reserved
    requires ExistingBid(s.log, s.calls[c].command.request).None?
    ensures var call := s.calls[c];
            var bid := TentativeBid(call.command, id, call.pc.row.version + 1, s.clock);
            FinishInsert(IssueInsert(s, c, id), c)
            == Goto(s, c, Updating(call.pc.row, call.pc.now, bid))
               .(drawn := s.drawn[id := c], reserved := s.reserved[call.command.request := c])
  {
  }

  /** A call inserts its bid and gets its entry in the unique index. */
  lemma InsertBid(run: Run, c: CallId, id: BidId) returns (next: Run)
    requires IsRun(run) && c in Last(run).calls && Last(run).calls[c].pc.Inserting? && id !in Last(run).drawn
    requires Last(run).calls[c].command.request !in Last(run).reserved
    requires ExistingBid(Last(run).log, Last(run).calls[c].command.request).None?
    ensures IsRun(next)
    ensures var s := Last(run); var call := s.calls[c];
            var bid := TentativeBid(call.command, id, call.pc.row.version + 1, s.clock);
            Last(next) == Goto(s, c, Updating(call.pc.row, call.pc.now, bid))
                          .(drawn := s.drawn[id := c], reserved := s.reserved[call.command.request := c])
  {
    InsertLands(Last(run), c, id);
    next := AdvanceInsert(run, c, id);
    next := AdvanceEnter(next, c);
  }

  /** A call of either locking-on-update kind updates its row and commits. */
  lemma UpdateAndCommit(run: Run, c: CallId) returns (next: Run)
    requires IsRun(run) && c in Last(run).calls && Last(run).calls[c].pc.Updating?
    requires !Last(run).calls[c].strategy.Optimistic?
    requires Last(run).calls[c].command.auction in Last(run).auctions
    requires LockFree(Last(run), c, Last(run).calls[c].command.auction)
    ensures IsRun(next) && Last(next) == CommitBid(IssueUpdate(Last(run), c), c)
  {
    next := AdvanceUpdate(run, c);
    next := AdvanceCommit(next, c);
  }

  /** An optimistic call whose guard holds updates its row and commits. */
  lemma GuardAndCommit(run: Run, c: CallId) returns (next: Run)
    requires IsRun(run) && c in Last(run).calls && Last(run).calls[c].pc.Updating?
    requires Last(run).calls[c].strategy.Optimistic?
    requires var s := Last(run); var a := s.calls[c].command.auction;
             a in s.auctions && a !in s.locks
                 && SqlGuard(s.auctions[a], s.calls[c].pc.row.version, s.calls[c].command.amount, s.clock)
    ensures IsRun(next) && Last(next) == CommitBid(FinishUpdate(IssueUpdate(Last(run), c), c), c)
  {
    next := AdvanceUpdate(run, c);
    next := AdvanceGuard(next, c);
    next := AdvanceCommit(next, c);
  }

  /** A fresh auction and a valid command on it that the rules accept at this time. */
  ghost predicate Biddable(created: Auction, command: Command, now: Instant) {
    && ValidAuction(created) && Fresh(created) == created
    && ValidCommand(command) && command.auction == created.id && Accepts(created, command.amount, now)
  }

  /** A database with one fresh auction and nothing going on. */
  function QuietState(created: Auction, poolSize: nat, clock: Instant): State {
    State(map[created.id := created], poolSize, map[created.id := created], [], clock, map[], map[], {}, map[], map[])
  }

  lemma QuietRun(created: Auction, poolSize: nat, clock: Instant) returns (run: Run)
    requires ValidAuction(created) && Fresh(created) == created && poolSize > 0
    ensures IsRun(run) && Last(run) == QuietState(created, poolSize, clock)
  {
    run := Run([QuietState(created, poolSize, clock)], []);
  }

  // ----- A pessimistic bid stamped at or after the end

  /** A committed bid stamped at or after the end is reported. */
  lemma LateBidIsReported(a: Auction, b: Bid) returns (report: Report)
    requires b.acceptedAt >= a.endsAt && a.winner == Some(b.id)
    ensures IsReport(a.id, Some(a), [b], report) && report.violations != []
  {
    var bids := [b];
    assert FirstHighest(bids, 0);
    assert FirstWinner(a, bids, Some(bids[0]));
    report := Report(a.id, 1, ListingViolations(a, bids, Some(bids[0]), bids[0]));
    assert IsListingReport(a.id, a, bids, 0, Some(bids[0]), report);
    HistoryClean(a, bids, 1);
    assert !BidFits(a, bids, 0);
  }

  /** A pessimistic call is accepted in time, and then the clock advances before its insert. */
  lemma OvertakenByTime(created: Auction, command: Command, openAt: Instant, late: Instant) returns (run: Run)
    requires Biddable(created, command, openAt) && created.endsAt <= late
    ensures IsRun(run)
    ensures var s := Last(run);
            && s.calls == map[1 := Call(Pessimistic, command, 1, [], Inserting(created, openAt))]
            && s.log == [] && s.drawn == map[] && s.reserved == map[] && s.locks == map[created.id := 1]
            && s.auctions == map[created.id := created] && s.clock == late
  {
    run := QuietRun(created, 1, openAt);
    run := BeginAndLookUp(run, 1, Pessimistic, command);
    run := LockAndDecide(run, 1);
    ExtendedIsRun(run, Tick(late));
    run := Extended(run, Tick(late));
  }

  /** One pessimistic call whose clock advances between its evaluation and its insert. */
  lemma LatePessimisticRun(created: Auction, command: Command, openAt: Instant, late: Instant) returns (run: Run)
    requires Biddable(created, command, openAt) && created.endsAt <= late
    ensures IsRun(run)
    ensures var s := Last(run); var bid := TentativeBid(command, 1, 1, late);
            && s.calls == map[1 := Call(Pessimistic, command, 1, [], Done(Accepted(bid, 1, 0)))]
            && s.log == [Commit(bid, 1, created, openAt, openAt)]
            && s.auctions == map[created.id := Successor(created, 1, command.amount)]
  {
    run := OvertakenByTime(created, command, openAt, late);
    run := InsertBid(run, 1, 1);
    run := UpdateAndCommit(run, 1);
  }

  /**
   For every auction, acceptable bid and late moment, some run of one pessimistic call accepts the bid with that moment
   as its acceptance time, and the checker reports it.
   */
  lemma PessimisticBidMayBeStampedLate(created: Auction, command: Command, openAt: Instant, late: Instant)
    returns (run: Run, report: Report)
    requires Biddable(created, command, openAt) && created.endsAt <= late
    ensures IsRun(run) && AllPessimistic(Last(run))
    ensures var s := Last(run);
            && |s.log| == 1 && s.log[0].bid.acceptedAt == late && s.log[0].bid.amount == command.amount
            && created.id in s.auctions
            && IsReport(created.id, Some(s.auctions[created.id]), Bids(s.log), report)
            && report.violations != []
  {
    run := LatePessimisticRun(created, command, openAt, late);
    var s := Last(run);
    report := LateBidIsReported(s.auctions[created.id], s.log[0].bid);
    assert Bids(s.log) == [s.log[0].bid];
  }

  // ----- An optimistic duplicate

  /** Two optimistic calls with the same command look for its request id before either commits; then one inserts. */
  lemma OvertakingDuplicate(created: Auction, command: Command, now: Instant, attempts: int) returns (run: Run)
    requires Biddable(created, command, now) && attempts > 0
    ensures IsRun(run)
    ensures var s := Last(run); var bid := TentativeBid(command, 1, 1, now);
            && s.calls == map[2 := Call(Optimistic(attempts), command, 1, [], Reading),
                              1 := Call(Optimistic(attempts), command, 1, [], Updating(created, now, bid))]
            && s.log == [] && s.locks == map[] && s.clock == now
            && s.auctions == map[created.id := created]
  {
    run := QuietRun(created, 2, now);
    run := BeginAndLookUp(run, 2, Optimistic(attempts), command);
    run := BeginAndLookUp(run, 1, Optimistic(attempts), command);
    run := ReadAndDecide(run, 1);
    run := InsertBid(run, 1, 1);
  }

  lemma OvertakenDuplicate(created: Auction, command: Command, now: Instant, attempts: int) returns (run: Run)
    requires Biddable(created, command, now) && attempts > 0
    ensures IsRun(run)
    ensures var s := Last(run); var bid := TentativeBid(command, 1, 1, now);
            && s.calls == map[2 := Call(Optimistic(attempts), command, 1, [], Reading),
                              1 := Call(Optimistic(attempts), command, 1, [], Done(Accepted(bid, 1, 0)))]
            && s.log == [Commit(bid, 1, created, now, now)]
            && s.auctions == map[created.id := Successor(created, 1, command.amount)]
            && s.clock == now
  {
    run := OvertakingDuplicate(created, command, now, attempts);
    GuardAgreesWithRule(created, command.amount, now);
    run := GuardAndCommit(run, 1);
  }

  /**
   For every auction and acceptable bid that leaves room for one more increment, some run of two optimistic calls with
   the same command accepts one and rejects the other as too low, although its very bid was committed.
   */
  lemma OptimisticDuplicateMayBeTooLow(created: Auction, command: Command, now: Instant, attempts: int)
    returns (run: Run)
    requires Biddable(created, command, now) && command.amount + created.increment <= MAX_MONEY_CENTS && attempts > 0
    ensures IsRun(run)
    ensures var s := Last(run);
            && 1 in s.calls && 2 in s.calls && s.calls[1].command == s.calls[2].command == command
            && s.calls[1].strategy == s.calls[2].strategy == Optimistic(attempts)
            && |s.log| == 1 && s.log[0].call == 1
            && s.calls[1].pc == Done(Accepted(s.log[0].bid, 1, 0))
            && s.calls[2].pc == Done(Rejected(BidTooLow, Some(command.amount + created.increment), 1, 0))
            && s.calls.Keys == {1, 2} && s.auctions == map[created.id := Successor(created, 1, command.amount)]
  {
    run := OvertakenDuplicate(created, command, now, attempts);
    run := ReadAndDecide(run, 2);
    var s := Last(run);
    run := Advance(run, 2, 0);
    assert Last(run) == Close(s, 2);
  }

  /** Requests for one command change the tables of the sequential object only by committing its bid. */
  lemma {:induction false} ServedAlike(start: Tables, h: seq<Event>, command: Command)
    requires forall k | 0 <= k < |h| :: h[k].command == command
    requires ServeAll(start, h).Some?
    ensures ServeAll(start, h).value == start || FindBid(ServeAll(start, h).value.bids, command.request).Some?
  {
    if h == [] {
    } else {
      ServedAlike(start, h[..|h| - 1], command);
    }
  }

  /** The sequential object never tells duplicates of a command it would accept that the bid is too low. */
  lemma DuplicatesAreNeverTooLow(start: Tables, created: Auction, command: Command, now: Instant, h: seq<Event>, k: nat)
    requires command.auction in start.auctions && start.auctions[command.auction] == created && start.bids == []
    requires ValidAuction(created) && Accepts(created, command.amount, now)
    requires forall j | 0 <= j < |h| :: h[j].command == command
    requires k < |h| && ServeAll(start, h).Some?
    ensures !(h[k].outcome.Rejected? && h[k].outcome.reason.BidTooLow?)
  {
    ServedPrefix(start, h, k + 1);
    ServedStep(start, h, k);
    ServedAlike(start, h[..k], command);
    AcceptanceMeans(created, 0, command.amount, now);
  }

  /** All events of the two calls carry the command, and the second call's event is one of them. */
  lemma EventsOfDuplicates(s: State, h: seq<Event>, command: Command) returns (k: nat)
    requires IsCompleted(s, 1) && IsCompleted(s, 2) && s.calls[1].command == s.calls[2].command == command
    requires AppearsPlainly(s, h, 1) && AppearsPlainly(s, h, 2)
    requires forall j | 0 <= j < |h| :: h[j].call in {1, 2}
    ensures forall j | 0 <= j < |h| :: h[j].command == command
    ensures k < |h| && h[k].outcome == Plain(s.calls[2].pc.outcome)
  {
    forall j | 0 <= j < |h| ensures h[j].command == command {
      EventBelongs(h, j);
    }
    EventsByComeFrom(h, 2);
    assert EventsBy(h, 2)[0] in EventsBy(h, 2);
    k :| 0 <= k < |h| && h[k] == EventsBy(h, 2)[0];
  }

  /** The sequential object gives all completed calls their outcomes, in this order of events of the run's calls. */
  ghost predicate Explains(run: Run, h: seq<Event>)
    requires run.states != []
  {
    && (forall j | 0 <= j < |h| :: h[j].call in Last(run).calls)
    && (forall c | IsCompleted(Last(run), c) :: AppearsPlainly(Last(run), h, c))
    && ServeAll(TablesOf(run.states[0]), h).Some?
  }

  /**
   That run has no sequential history at all: in no order of events of its calls, with any clock values and at any
   moments, does the sequential object give both calls their outcomes.
   */
  lemma OptimisticDuplicateHasNoHistory(created: Auction, command: Command, now: Instant, attempts: int)
    returns (run: Run)
    requires Biddable(created, command, now) && command.amount + created.increment <= MAX_MONEY_CENTS && attempts > 0
    ensures IsRun(run) && Last(run).calls.Keys == {1, 2} && IsCompleted(Last(run), 1) && IsCompleted(Last(run), 2)
    ensures Last(run).calls[1].strategy == Last(run).calls[2].strategy == Optimistic(attempts)
    ensures Last(run).calls[1].command == Last(run).calls[2].command == command
    ensures forall h: seq<Event> :: !Explains(run, h)
  {
    run := OptimisticDuplicateMayBeTooLow(created, command, now, attempts);
    StartOfRun(run, created, 1, command.amount);
    forall h: seq<Event> ensures !Explains(run, h) {
      if Explains(run, h) {
        var k := EventsOfDuplicates(Last(run), h, command);
        DuplicatesAreNeverTooLow(TablesOf(run.states[0]), created, command, now, h, k);
        assert false;
      }
    }
  }

  lemma StartOfRun(run: Run, created: Auction, bid: BidId, amount: int)
    requires IsRun(run) && Fresh(created) == created
    requires Last(run).auctions == map[created.id := Successor(created, bid, amount)]
    ensures var start := TablesOf(run.states[0]);
            created.id in start.auctions && start.auctions[created.id] == created && start.bids == []
  {
    var n := |run.states| - 1;
    RunKeepsInv(run, n);
    RunGrows(run, 0, n);
    var s, a := Last(run), created.id;
    assert RowIsLatest(s.catalog[a], History(s.log, a), s.auctions[a]);
  }

  // ----- Mixed strategies

  /** No unfinished call can step. */
  ghost predicate Stuck(s: State) {
    && (exists c :: Unfinished(s, c))
    && forall c | Unfinished(s, c) :: !Ready(s, c)
  }

  /** A pessimistic call owns the row lock while a duplicate of another kind has found its bid acceptable too. */
  lemma LockedAndDecided(created: Auction, command: Command, now: Instant, other: Strategy) returns (run: Run)
    requires Biddable(created, command, now) && ValidStrategy(other) && !other.Pessimistic?
    ensures IsRun(run)
    ensures var s := Last(run);
            && s.calls == map[1 := Call(Pessimistic, command, 1, [], Inserting(created, now)),
                              2 := Call(other, command, 1, [], Inserting(created, now))]
            && s.locks == map[created.id := 1] && s.reserved == map[] && s.drawn == map[]
            && s.auctions == map[created.id := created] && s.clock == now && s.log == []
  {
    run := QuietRun(created, 2, now);
    run := BeginAndLookUp(run, 1, Pessimistic, command);
    run := LockAndDecide(run, 1);
    run := BeginAndLookUp(run, 2, other, command);
    run := ReadAndDecide(run, 2);
  }

  /** Then the duplicate gets the index entry. */
  lemma CrossedResources(created: Auction, command: Command, now: Instant, other: Strategy) returns (run: Run)
    requires Biddable(created, command, now) && ValidStrategy(other) && !other.Pessimistic?
    ensures IsRun(run)
    ensures var s, bid := Last(run), TentativeBid(command, 2, 1, now);
            && s.calls == map[1 := Call(Pessimistic, command, 1, [], Inserting(created, now)),
                              2 := Call(other, command, 1, [], Updating(created, now, bid))]
            && s.locks == map[created.id := 1] && s.reserved == map[command.request := 2]
            && s.drawn == map[2 := 2] && s.auctions == map[created.id := created] && s.clock == now && s.log == []
  {
    run := LockedAndDecided(created, command, now, other);
    run := InsertBid(run, 2, 2);
  }

  /** Both calls then wait for each other: the second at its update, after its guard if it has one. */
  ghost predicate Crossed(s: State, created: Auction, command: Command, now: Instant, other: Strategy) {
    var bid := TentativeBid(command, 2, 1, now);
    var waiting := InsertWaiting(created, now, TentativeBid(command, 1, 1, now));
    && s.calls == map[1 := Call(Pessimistic, command, 1, [], waiting),
                      2 := Call(other, command, 1, [], if other.Optimistic? then UpdateWaiting(created, now, bid, now)
                                                       else Updating(created, now, bid))]
    && s.locks == map[created.id := 1] && s.reserved == map[command.request := 2]
    && s.auctions == map[created.id := created]
  }

  lemma CrossedWaits(created: Auction, command: Command, now: Instant, other: Strategy) returns (run: Run)
    requires Biddable(created, command, now) && ValidStrategy(other) && !other.Pessimistic?
    ensures IsRun(run) && Crossed(Last(run), created, command, now, other)
  {
    run := CrossedResources(created, command, now, other);
    run := AdvanceInsert(run, 1, 1);
    if other.Optimistic? {
      GuardAgreesWithRule(created, command.amount, now);
      run := AdvanceUpdate(run, 2);
    }
  }

  lemma CrossedIsStuck(s: State, created: Auction, command: Command, now: Instant, other: Strategy)
    requires Crossed(s, created, command, now, other) && command.auction == created.id && !other.Pessimistic?
    ensures Stuck(s) && WaitsFor(s, 1, 2) && WaitsFor(s, 2, 1) && Crosses(s, 1, 2)
  {
    assert Unfinished(s, 1);
  }

  /**
   When a pessimistic call and a call of any other kind share a request id the two locking orders may meet: duplicates
   of any acceptable command may each own what the other waits for, so that only a fault ends the wait.
   */
  lemma MixedRunMayDeadlock(created: Auction, command: Command, now: Instant, other: Strategy) returns (run: Run)
    requires Biddable(created, command, now) && ValidStrategy(other) && !other.Pessimistic?
    ensures IsRun(run) && Stuck(Last(run))
    ensures WaitsFor(Last(run), 1, 2) && WaitsFor(Last(run), 2, 1) && Crosses(Last(run), 1, 2)
    ensures Last(run).calls[2].strategy == other
  {
    run := CrossedWaits(created, command, now, other);
    CrossedIsStuck(Last(run), created, command, now, other);
  }
}
