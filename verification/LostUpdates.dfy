/**
 The lost update at any size: however many distinct acceptable requests arrive at a fresh open auction, some unsafe run
 accepts them all at version 1, in any chosen commit order.
 */
module LostUpdates {
  import opened Wrappers
  import opened Models
  import opened Rules
  import opened Checker
  import opened Transactions
  import opened BaseInvariant
  import opened Anomaly
  import opened CheckedRuns
  import opened Witnesses

  /** Valid commands on this auction, with distinct request ids, each at least the starting price. */
  ghost predicate Contenders(created: Auction, commands: seq<Command>) {
    && (forall i | 0 <= i < |commands| ::
          ValidCommand(commands[i]) && commands[i].auction == created.id && created.startingPrice <= commands[i].amount)
    && (forall i, j | 0 <= i < j < |commands| :: commands[i].request != commands[j].request)
  }

  ghost predicate FreshOpen(created: Auction, now: Instant) {
    ValidAuction(created) && Fresh(created) == created && SqlWindow(created, now)
  }

  function BidOf(commands: seq<Command>, i: nat, now: Instant): Bid
    requires i < |commands|
  {
    TentativeBid(commands[i], i, 1, now)
  }

  /** The calls that have read the fresh row and found their bid acceptable. */
  ghost predicate HasRead(s: State, created: Auction, commands: seq<Command>, now: Instant, c: CallId) {
    c in s.calls && 0 <= c < |commands| && s.calls[c] == Call(Unsafe, commands[c], 1, [], Inserting(created, now))
  }

  /** The first k calls have read; nothing has been written. */
  ghost predicate ReadPhase(s: State, created: Auction, commands: seq<Command>, now: Instant, k: nat) {
    && s.poolSize == |commands| && s.auctions == map[created.id := created] && s.log == [] && s.clock == now
    && s.locks == map[] && s.reserved == map[] && s.drawn == map[]
    && |s.connections| == k
    && (forall c | c in s.connections :: c < k)
    && (forall c | c in s.calls :: c < k)
    && (forall c | 0 <= c < k :: HasRead(s, created, commands, now, c))
  }

  lemma ReadOne(run: Run, created: Auction, commands: seq<Command>, now: Instant, k: nat) returns (next: Run)
    requires FreshOpen(created, now) && Contenders(created, commands)
    requires IsRun(run) && k < |commands| && ReadPhase(Last(run), created, commands, now, k)
    ensures IsRun(next) && ReadPhase(Last(next), created, commands, now, k + 1)
  {
    var s := Last(run);
    next := BeginAndLookUp(run, k, Unsafe, commands[k]);
    next := ReadAndDecide(next, k);
    forall c | 0 <= c < k + 1 ensures HasRead(Last(next), created, commands, now, c) {
      assert c < k ==> HasRead(s, created, commands, now, c);
    }
  }

  lemma {:induction false} ReadMany(created: Auction, commands: seq<Command>, now: Instant, k: nat) returns (run: Run)
    requires FreshOpen(created, now) && Contenders(created, commands)
    requires 0 < |commands| && k <= |commands|
    ensures IsRun(run) && ReadPhase(Last(run), created, commands, now, k)
  {
    if k == 0 {
      run := QuietRun(created, |commands|, now);
    } else {
      run := ReadMany(created, commands, now, k - 1);
      run := ReadOne(run, created, commands, now, k - 1);
    }
  }

  /** The row after the first k commits: the last one's price and winner, still version 1. */
  function OverwrittenRow(created: Auction, commands: seq<Command>, k: nat): Auction
    requires k <= |commands|
  {
    if k == 0 then created
    else created.(currentPrice := Some(commands[k - 1].amount), winner := Some(k - 1), version := 1)
  }

  ghost predicate HasCommitted(s: State, commands: seq<Command>, now: Instant, c: CallId) {
    c in s.calls && 0 <= c < |commands|
        && s.calls[c] == Call(Unsafe, commands[c], 1, [], Done(Accepted(BidOf(commands, c, now), 1, 0)))
  }

  /** The first k calls have committed on top of the same fresh row; the others still hold it. */
  ghost predicate CommitPhase(s: State, created: Auction, commands: seq<Command>, now: Instant, k: nat)
    requires k <= |commands|
  {
    && s.clock == now && s.locks == map[] && s.reserved == map[]
    && s.auctions == map[created.id := OverwrittenRow(created, commands, k)]
    && |s.log| == k && (forall i | 0 <= i < k :: s.log[i] == Commit(BidOf(commands, i, now), i, created, now, now))
    && (forall id | id in s.drawn :: id < k)
    && (forall c | 0 <= c < k :: HasCommitted(s, commands, now, c))
    && (forall c | k <= c < |commands| :: HasRead(s, created, commands, now, c))
  }

  lemma NotFoundYet(log: seq<Commit>, r: RequestId)
    requires forall i | 0 <= i < |log| :: log[i].bid.request != r
    ensures FindCommit(log, r).None?
  {
    FindCommitFinds(log, r);
  }

  /** An unsafe call that has read the fresh row writes it over whatever is there. */
  lemma WriteOver(run: Run, created: Auction, command: Command, now: Instant, k: nat) returns (next: Run)
    requires FreshOpen(created, now) && command.auction == created.id
    requires IsRun(run)
    requires var s := Last(run);
             && k in s.calls && s.calls[k] == Call(Unsafe, command, 1, [], Inserting(created, now))
             && s.clock == now && s.locks == map[] && s.reserved == map[] && k !in s.drawn
             && created.id in s.auctions && ExistingBid(s.log, command.request).None?
    ensures IsRun(next)
    ensures var s, t := Last(run), Last(next); var bid := TentativeBid(command, k, 1, now);
            && t.calls == s.calls[k := Call(Unsafe, command, 1, [], Done(Accepted(bid, 1, 0)))]
            && t.log == s.log + [Commit(bid, k, created, now, now)]
            && t.auctions
               == s.auctions[created.id := Successor(s.auctions[created.id], k, command.amount).(version := 1)]
            && t.locks == map[] && t.reserved == map[] && t.drawn == s.drawn[k := k] && t.clock == now
  {
    next := InsertBid(run, k, k);
    next := UpdateAndCommit(next, k);
  }

  lemma CommitOne(run: Run, created: Auction, commands: seq<Command>, now: Instant, k: nat) returns (next: Run)
    requires FreshOpen(created, now) && Contenders(created, commands)
    requires IsRun(run) && k < |commands| && CommitPhase(Last(run), created, commands, now, k)
    ensures IsRun(next) && CommitPhase(Last(next), created, commands, now, k + 1)
  {
    var s := Last(run);
    assert HasRead(s, created, commands, now, k);
    NotFoundYet(s.log, commands[k].request);
    next := WriteOver(run, created, commands[k], now, k);
    var t := Last(next);
    forall c | 0 <= c < k + 1 ensures HasCommitted(t, commands, now, c) {
      assert c < k ==> HasCommitted(s, commands, now, c);
    }
    forall c | k + 1 <= c < |commands| ensures HasRead(t, created, commands, now, c) {
      assert HasRead(s, created, commands, now, c);
    }
  }

  lemma {:induction false} CommitMany(created: Auction, commands: seq<Command>, now: Instant, k: nat) returns (run: Run)
    requires FreshOpen(created, now) && Contenders(created, commands)
    requires 0 < |commands| && k <= |commands|
    ensures IsRun(run) && CommitPhase(Last(run), created, commands, now, k)
  {
    if k == 0 {
      run := ReadMany(created, commands, now, |commands|);
    } else {
      run := CommitMany(created, commands, now, k - 1);
      run := CommitOne(run, created, commands, now, k - 1);
    }
  }

  lemma {:induction false} HistoryOfOneAuction(log: seq<Commit>, a: AuctionId)
    requires forall i | 0 <= i < |log| :: log[i].bid.auction == a
    ensures History(log, a) == log
  {
    if log == [] {
    } else {
      HistoryOfOneAuction(log[..|log| - 1], a);
    }
  }

  predicate IsWinnerNotHighest(v: Violation) {
    v.WinnerNotHighest?
  }

  lemma LowWinnerViolates(a: Auction, bids: seq<Bid>, winner: int, higher: int, k: int, w: Option<Bid>)
    requires DistinctIds(bids) && 0 <= winner < |bids| && 0 <= higher < |bids|
    requires a.winner == Some(bids[winner].id) && bids[winner].amount < bids[higher].amount
    requires FirstHighest(bids, k) && FirstWinner(a, bids, w)
    ensures WinnerNotHighest(bids[winner].amount, bids[k].amount) in WinnerViolations(a, w, bids[k])
  {
    assert w.Some? && w.value == bids[winner];
    assert bids[k].amount >= bids[higher].amount;
    assert bids[k].id != bids[winner].id;
  }

  /** A row carrying a bid that is not the highest is reported so. */
  lemma LowWinnerIsReported(a: Auction, bids: seq<Bid>, winner: int, higher: int, report: Report)
    requires DistinctIds(bids) && 0 <= winner < |bids| && 0 <= higher < |bids|
    requires a.winner == Some(bids[winner].id) && bids[winner].amount < bids[higher].amount
    requires IsReport(a.id, Some(a), bids, report)
    ensures Reports(report, IsWinnerNotHighest)
  {
    var k, w :| IsListingReport(a.id, a, bids, k, w, report);
    var v := WinnerNotHighest(bids[winner].amount, bids[k].amount);
    LowWinnerViolates(a, bids, winner, higher, k, w);
    InConcatenation(VersionViolations(a, bids), HistoryViolations(a, bids, |bids|), WinnerViolations(a, w, bids[k]), v);
    assert IsWinnerNotHighest(v);
  }

  /** Every call was accepted at version 1 in the order given, and the row kept only the last. */
  ghost predicate AllAcceptedAtVersionOne(s: State, created: Auction, commands: seq<Command>) {
    && |s.log| == |commands|
    && created.id in s.auctions && s.auctions[created.id].version == 1
    && forall c: int | 0 <= c < |commands| :: AcceptedAtVersionOne(s, commands[c], c)
  }

  ghost predicate AcceptedAtVersionOne(s: State, command: Command, c: CallId) {
    && c in s.calls && s.calls[c].strategy.Unsafe? && s.calls[c].command == command
    && s.calls[c].pc.Done? && s.calls[c].pc.outcome.Accepted?
    && 0 <= c < |s.log| && s.calls[c].pc.outcome.bid == s.log[c].bid && s.log[c].bid.version == 1
  }

  lemma LastBidWins(s: State, created: Auction, commands: seq<Command>, now: Instant, j: nat)
    requires j < |commands| && commands[j].amount > commands[|commands| - 1].amount
    requires CommitPhase(s, created, commands, now, |commands|)
    ensures var table, n := Bids(s.log), |commands|;
            && |table| == n && DistinctIds(table) && created.id in s.auctions
            && s.auctions[created.id].winner == Some(table[n - 1].id) && table[n - 1].amount < table[j].amount
  {
  }

  lemma ListedWinnerIsLow(s: State, created: Auction, commands: seq<Command>, now: Instant, listing: seq<Bid>, j: nat,
      report: Report)
    requires j < |commands| && commands[j].amount > commands[|commands| - 1].amount
    requires CommitPhase(s, created, commands, now, |commands|)
    requires IsListing(listing, Bids(s.log)) && IsReport(created.id, Some(s.auctions[created.id]), listing, report)
    ensures Reports(report, IsWinnerNotHighest)
  {
    var table := Bids(s.log);
    LastBidWins(s, created, commands, now, j);
    var winner := SameMembers(table, listing, |commands| - 1);
    var higher := SameMembers(table, listing, j);
    PermutationKeepsDistinct(listing, table);
    LowWinnerIsReported(s.auctions[created.id], listing, winner, higher, report);
  }

  /** A listing of bids with distinct ids has distinct ids. */
  lemma PermutationKeepsDistinct(listing: seq<Bid>, table: seq<Bid>)
    requires multiset(listing) == multiset(table) && DistinctIds(table)
    ensures DistinctIds(listing)
  {
    forall i, j | 0 <= i < j < |listing| ensures listing[i].id != listing[j].id {
      if listing[i].id == listing[j].id {
        var m := SameMembers(listing, table, i);
        var n := SameMembers(listing, table, j);
        assert m == n;
        RepeatedElement(listing, i, j);
        SingleElement(table, m);
        assert false;
      }
    }
  }

  lemma SingleElement(q: seq<Bid>, k: nat)
    requires k < |q| && DistinctIds(q)
    ensures multiset(q)[q[k]] == 1
  {
    assert q == q[..k] + [q[k]] + q[k + 1..];
    assert q[k] !in q[..k] && q[k] !in q[k + 1..];
  }

  /** Both version violations, and the low winner when some bid exceeds the last one. */
  ghost predicate ReportsLoss(commands: seq<Command>, report: Report) {
    && Reports(report, IsVersionSequence) && Reports(report, IsAuctionVersion)
    && (forall j | 0 <= j < |commands| && commands[j].amount > commands[|commands| - 1].amount ::
          Reports(report, IsWinnerNotHighest))
  }

  lemma LossIsReported(run: Run, created: Auction, commands: seq<Command>, now: Instant, listing: seq<Bid>,
      report: Report)
    requires |commands| >= 2 && IsRun(run) && CommitPhase(Last(run), created, commands, now, |commands|)
    requires Contenders(created, commands)
    requires IsListing(listing, Bids(Last(run).log))
    requires IsReport(created.id, Some(Last(run).auctions[created.id]), listing, report)
    ensures ReportsLoss(commands, report)
  {
    var s := Last(run);
    HistoryOfOneAuction(s.log, created.id);
    assert s.log[0].bid.version == s.log[1].bid.version;
    LostUpdatesAreSharedVersions(run, |run.states| - 1, created.id, listing, report);
    forall j | 0 <= j < |commands| && commands[j].amount > commands[|commands| - 1].amount
      ensures Reports(report, IsWinnerNotHighest)
    {
      ListedWinnerIsLow(s, created, commands, now, listing, j, report);
    }
  }

  /**
   For any two or more distinct requests at or above the starting price of a fresh open auction, taken in any order,
   some unsafe run accepts all of them at version 1 and leaves row version 1; whatever listing of the bids the checker
   is given, it reports both version violations, and if a bid exceeds the last one also that the winner is not the
   highest.
   */
  lemma AnyNumberOfUpdatesCanBeLost(created: Auction, commands: seq<Command>, now: Instant) returns (run: Run)
    requires FreshOpen(created, now) && Contenders(created, commands) && |commands| >= 2
    ensures IsRun(run) && AllAcceptedAtVersionOne(Last(run), created, commands)
    ensures forall listing, report |
              IsListing(listing, Bids(Last(run).log))
                  && IsReport(created.id, Some(Last(run).auctions[created.id]), listing, report) ::
              ReportsLoss(commands, report)
  {
    run := CommitMany(created, commands, now, |commands|);
    forall c: int | 0 <= c < |commands| ensures AcceptedAtVersionOne(Last(run), commands[c], c) {
      assert HasCommitted(Last(run), commands, now, c);
    }
    forall listing, report |
      IsListing(listing, Bids(Last(run).log))
          && IsReport(created.id, Some(Last(run).auctions[created.id]), listing, report)
      ensures ReportsLoss(commands, report)
    {
      LossIsReported(run, created, commands, now, listing, report);
    }
  }
}
