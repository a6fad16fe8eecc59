/**
 In every run that mixes pessimistic and optimistic calls, each auction row is what the pure rules make of its
 committed bids in commit order, which is version order.
 */
module SafeRefinement {
  import opened Wrappers
  import opened Models
  import opened Rules
  import opened Transactions
  import opened BaseInvariant
  import opened Preservation
  import opened Progress

  // ----- The sequential auction

  /**
   Apply commits in order, each at the time it was validated; fails unless each is accepted and given its own
   version.
   */
  function ReplayCommits(start: Auction, h: seq<Commit>): Option<Auction> {
    if h == [] then Some(start)
    else
      match ReplayCommits(start, h[..|h| - 1])
      case None => None
      case Some(a) =>
        var e := h[|h| - 1];
        var next := ApplyAcceptedBid(a, e.bid.id, e.bid.amount, e.validatedAt);
        if next.Ok? && next.value.version == e.bid.version then Some(next.value) else None
  }

  // ----- The invariant of safe runs

  ghost predicate NoUnsafe(s: State) {
    forall c | c in s.calls :: !s.calls[c].strategy.Unsafe?
  }

  /** Versions identify rows: a row read earlier is older than the newest row, or is the newest row. */
  ghost predicate Behind(row: Auction, newest: Auction) {
    row.version <= newest.version && (row.version == newest.version ==> row == newest)
  }

  ghost predicate HeldRowOk(auctions: map<AuctionId, Auction>, call: Call) {
    var held := HeldRow(call.pc);
    held.Some? ==> call.command.auction in auctions && Behind(held.value, auctions[call.command.auction])
  }

  ghost predicate Refines(s: State, a: AuctionId)
    requires a in s.catalog && a in s.auctions
  {
    ReplayCommits(s.catalog[a], History(s.log, a)) == Some(s.auctions[a])
  }

  ghost predicate SafeInv(s: State) {
    && s.auctions.Keys == s.catalog.Keys
    && (forall a | a in s.catalog :: Refines(s, a))
    && (forall c | c in s.calls :: HeldRowOk(s.auctions, s.calls[c]))
  }

  // ----- Preservation

  /** A commit checked against the newest row follows the rule at its validation time. */
  lemma CommitOnNewestRow(s: State, c: CallId)
    requires Inv(s) && c in s.calls && s.calls[c].pc.Committing?
    requires s.calls[c].command.auction in s.auctions && s.calls[c].pc.row == s.auctions[s.calls[c].command.auction]
    ensures var pc := s.calls[c].pc; var a := s.calls[c].command.auction;
            && ApplyAcceptedBid(s.auctions[a], pc.bid.id, pc.bid.amount, pc.guardedAt) == Ok(pc.next)
            && pc.next.version == pc.bid.version
  {
    var pc := s.calls[c].pc;
    assert CallOk(s.catalog, s.log, s.clock, s.drawn, c, s.calls[c]) && Protected(s.auctions, s.calls[c]);
    AcceptanceMeans(pc.row, pc.bid.id, pc.bid.amount, pc.now);
    AcceptanceMeans(pc.row, pc.bid.id, pc.bid.amount, pc.guardedAt);
  }

  /**
   In a safe run the row a committing call validated is the newest row, and the pure rule accepts at validation
   time.
   */
  lemma CommitFollowsRule(s: State, c: CallId)
    requires Inv(s) && SafeInv(s) && c in s.calls && s.calls[c].pc.Committing? && !s.calls[c].strategy.Unsafe?
    ensures var pc := s.calls[c].pc; var a := s.calls[c].command.auction;
            && a in s.auctions && a in s.catalog && pc.row == s.auctions[a]
            && ApplyAcceptedBid(s.auctions[a], pc.bid.id, pc.bid.amount, pc.guardedAt) == Ok(pc.next)
            && pc.next.version == pc.bid.version
  {
    assert Protected(s.auctions, s.calls[c]);
    assert CallOk(s.catalog, s.log, s.clock, s.drawn, c, s.calls[c]);
    assert HeldRowOk(s.auctions, s.calls[c]);
    CommitOnNewestRow(s, c);
  }

  lemma CommitKeepsSafe(s: State, c: CallId)
    requires Inv(s) && SafeInv(s) && c in s.calls && s.calls[c].pc.Committing? && !s.calls[c].strategy.Unsafe?
    ensures SafeInv(CommitBid(s, c))
  {
    var t := CommitBid(s, c);
    var e := t.log[|s.log|];
    CommitFollowsRule(s, c);
    assert CallOk(s.catalog, s.log, s.clock, s.drawn, c, s.calls[c]);
    forall a | a in t.catalog ensures Refines(t, a) {
      assert Refines(s, a);
      HistoryOfAppend(s.log, e, a);
      FrontOfAppend(History(s.log, a), e);
    }
    forall d | d in t.calls ensures HeldRowOk(t.auctions, t.calls[d]) {
      assert d != c ==> HeldRowOk(s.auctions, s.calls[d]);
    }
  }

  lemma StepKeepsSafe(s: State, action: Action)
    requires Inv(s) && SafeInv(s) && Enabled(s, action)
    requires NoUnsafe(Perform(s, action))
    ensures SafeInv(Perform(s, action))
  {
    var t := Perform(s, action);
    if action.Statement? && s.calls[action.call].pc.Committing? {
      assert t.calls[action.call].strategy == s.calls[action.call].strategy;
      CommitKeepsSafe(s, action.call);
    } else {
      forall a | a in t.catalog ensures Refines(t, a) {
        assert Refines(s, a);
      }
      forall c | c in t.calls ensures HeldRowOk(t.auctions, t.calls[c]) {
        if c in s.calls {
          assert HeldRowOk(s.auctions, s.calls[c]);
        }
      }
    }
  }

  lemma {:induction false} RunKeepsSafe(run: Run, i: nat)
    requires IsRun(run) && i < |run.states| && NoUnsafe(run.states[i])
    ensures Inv(run.states[i]) && SafeInv(run.states[i])
  {
    RunKeepsInv(run, i);
    if i == 0 {
    } else {
      RunGrows(run, i - 1, i);
      assert Follows(run, i - 1);
      RunKeepsInv(run, i - 1);
      RunKeepsSafe(run, i - 1);
      StepKeepsSafe(run.states[i - 1], run.actions[i - 1]);
    }
  }

  /** An earlier state of a safe run is safe, with a shorter log and an earlier clock. */
  lemma EarlierState(run: Run, i: nat, j: nat)
    requires IsRun(run) && i <= j < |run.states| && NoUnsafe(run.states[j])
    ensures NoUnsafe(run.states[i]) && run.states[i].catalog == run.states[j].catalog
    ensures run.states[i].log <= run.states[j].log && run.states[i].clock <= run.states[j].clock
  {
    RunGrows(run, i, j);
  }

  // ----- What replaying tells about a history

  /** What a history has when it replays from a fresh auction. */
  ghost predicate Chained(start: Auction, h: seq<Commit>, k: int)
    requires 0 <= k < |h|
  {
    && h[k].bid.version == k + 1
    && h[k].bid.amount >= (if k == 0 then start.startingPrice else h[k - 1].bid.amount + start.increment)
    && h[k].bid.amount >= start.startingPrice + k * start.increment
    && ValidMoney(h[k].bid.amount)
    && SqlWindow(start, h[k].validatedAt)
  }

  ghost predicate EndsIn(start: Auction, h: seq<Commit>, row: Auction) {
    && ValidAuction(row) && Fresh(row) == start && row.version == |h|
    && if h == [] then row == start
       else row.winner == Some(h[|h| - 1].bid.id) && row.currentPrice == Some(h[|h| - 1].bid.amount)
  }

  lemma NextMultiple(k: int, x: int)
    ensures (k + 1) * x == k * x + x
  {
  }

  /** A replayed history counts versions from one and rises by the increment; the row is its last bid. */
  lemma {:induction false} ReplayMeans(start: Auction, h: seq<Commit>)
    requires ValidAuction(start) && Fresh(start) == start
    requires ReplayCommits(start, h).Some?
    ensures EndsIn(start, h, ReplayCommits(start, h).value)
    ensures forall k {:trigger Chained(start, h, k)} | 0 <= k < |h| :: Chained(start, h, k)
  {
    if h == [] {
    } else {
      var front := h[..|h| - 1];
      var e := h[|h| - 1];
      ReplayMeans(start, front);
      var row := ReplayCommits(start, front).value;
      AcceptanceMeans(row, e.bid.id, e.bid.amount, e.validatedAt);
      forall k | 0 <= k < |h| ensures Chained(start, h, k) {
        if k < |front| {
          assert Chained(start, front, k);
        } else if k > 0 {
          assert Chained(start, front, k - 1);
          NextMultiple(k - 1, start.increment);
        }
      }
    }
  }

  /** Amounts along a replayed history strictly rise. */
  lemma {:induction false} ReplayRises(start: Auction, h: seq<Commit>, i: nat, j: nat)
    requires ValidAuction(start) && Fresh(start) == start && ReplayCommits(start, h).Some?
    requires i < j < |h|
    ensures h[i].bid.amount < h[j].bid.amount
    decreases j
  {
    ReplayMeans(start, h);
    assert Chained(start, h, j);
    if i == j - 1 {
    } else {
      ReplayRises(start, h, i, j - 1);
    }
  }

  // ----- Main results

  /**
   At every point of every run of safe calls, an auction row equals the fold of the pure rules over its committed bids;
   versions are exactly 1..n in commit order, the row version is n, and the last bid is winner and unique highest.
   */
  lemma SafeRunsRefineSequentialAuction(run: Run, i: nat, a: AuctionId)
    requires IsRun(run) && i < |run.states| && NoUnsafe(run.states[i])
    requires a in run.states[i].catalog
    ensures var s := run.states[i]; var h := History(s.log, a);
            && a in s.auctions
            && ReplayCommits(s.catalog[a], h) == Some(s.auctions[a])
            && s.auctions[a].version == |h|
            && (forall k | 0 <= k < |h| :: h[k].bid.version == k + 1)
            && (h != [] ==>
                  && s.auctions[a].winner == Some(h[|h| - 1].bid.id)
                  && s.auctions[a].currentPrice == Some(h[|h| - 1].bid.amount)
                  && forall k | 0 <= k < |h| - 1 :: h[k].bid.amount < h[|h| - 1].bid.amount)
  {
    var s := run.states[i];
    var h := History(s.log, a);
    RunKeepsSafe(run, i);
    assert Refines(s, a);
    ReplayMeans(s.catalog[a], h);
    forall k | 0 <= k < |h| ensures h[k].bid.version == k + 1 {
      assert Chained(s.catalog[a], h, k);
    }
    forall k | 0 <= k < |h| - 1 ensures h[k].bid.amount < h[|h| - 1].bid.amount {
      ReplayRises(s.catalog[a], h, k, |h| - 1);
    }
  }

  /**
   The k-th bid costs at least the starting price and k - 1 increments, which bounds the number of bids and the
   version.
   */
  lemma AcceptedBidsAreBounded(run: Run, i: nat, a: AuctionId, k: nat)
    requires IsRun(run) && i < |run.states| && NoUnsafe(run.states[i])
    requires a in run.states[i].catalog && k < |History(run.states[i].log, a)|
    ensures var s := run.states[i]; var created := s.catalog[a]; var h := History(s.log, a);
            && created.increment > 0
            && h[k].bid.amount >= created.startingPrice + k * created.increment
            && |h| <= 1 + (MAX_MONEY_CENTS - created.startingPrice) / created.increment
            && a in s.auctions
            && s.auctions[a].version <= 1 + (MAX_MONEY_CENTS - created.startingPrice) / created.increment
  {
    var s := run.states[i];
    var created := s.catalog[a];
    var h := History(s.log, a);
    SafeRunsRefineSequentialAuction(run, i, a);
    RunKeepsSafe(run, i);
    ReplayMeans(created, h);
    assert Chained(created, h, k);
    assert Chained(created, h, |h| - 1);
    QuotientBound(|h| - 1, created.increment, MAX_MONEY_CENTS - created.startingPrice);
  }

  lemma ProductGrows(m: int, n: int, d: int)
    requires m <= n && d > 0
    ensures m * d <= n * d
  {
  }

  lemma QuotientBound(n: int, d: int, total: int)
    requires d > 0 && n * d <= total
    ensures n <= total / d
  {
    var q := total / d;
    assert total < (q + 1) * d;
    if q + 1 <= n {
      ProductGrows(q + 1, n, d);
      assert false;
    }
  }
}
