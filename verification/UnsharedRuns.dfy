/**
 Runs of any mix of strategies in which no two commits on an auction share a version. There every commit was checked
 against the newest row, unsafe ones included, so that each follows the pure rules.
 */
module UnsharedRuns {
  import opened Models
  import opened Rules
  import opened Checker
  import opened Transactions
  import opened BaseInvariant
  import opened Preservation
  import opened Progress
  import opened RunSteps
  import opened SafeRefinement
  import opened Anomaly
  import opened CheckedRuns

  ghost predicate Unshared(s: State) {
    forall a | a in s.catalog :: !SharedVersion(History(s.log, a))
  }

  lemma SafeIsUnshared(run: Run, i: nat)
    requires IsRun(run) && i < |run.states| && NoUnsafe(run.states[i])
    ensures Unshared(run.states[i])
  {
    RunKeepsInv(run, i);
    forall a | a in run.states[i].catalog ensures !SharedVersion(History(run.states[i].log, a)) {
      SafeRunsAreUnshared(run, i, a);
    }
  }

  lemma {:induction false} HistoryOfPrefix(log: seq<Commit>, m: nat, a: AuctionId)
    requires m <= |log|
    ensures History(log[..m], a) <= History(log, a)
    decreases |log|
  {
    if m == |log| {
      assert log[..m] == log;
    } else {
      HistoryOfPrefix(log[..|log| - 1], m, a);
      assert log[..|log| - 1][..m] == log[..m];
    }
  }

  lemma EarlierIsUnshared(run: Run, i: nat, j: nat)
    requires IsRun(run) && i <= j < |run.states| && Unshared(run.states[j])
    ensures Unshared(run.states[i])
  {
    RunGrows(run, i, j);
    var s, t := run.states[i], run.states[j];
    assert t.log[..|s.log|] == s.log;
    forall a | a in s.catalog ensures !SharedVersion(History(s.log, a)) {
      HistoryOfPrefix(t.log, |s.log|, a);
    }
  }

  /** Without a shared version, versions count up in commit order. */
  lemma UnsharedVersionsCount(run: Run, i: nat, a: AuctionId)
    requires IsRun(run) && i < |run.states| && Unshared(run.states[i]) && a in run.states[i].catalog
    ensures Serial(History(run.states[i].log, a))
  {
    var h := History(run.states[i].log, a);
    RunHistoryIsLinked(run, i, a);
    forall k | 0 <= k < |h| ensures h[k].bid.version == k + 1 {
      UnsharedIsSerial(h, run.states[i].catalog[a], k);
    }
  }

  /** A row that some commit left, at the version of the last commit, is the newest one. */
  lemma RowOfLastVersion(s: State, a: AuctionId, row: Auction)
    requires Inv(s) && a in s.auctions && a in s.catalog && ReadOk(s.catalog, s.log, a, row)
    requires Serial(History(s.log, a)) && row.version == |History(s.log, a)|
    ensures row == s.auctions[a]
  {
    var h := History(s.log, a);
    assert RowIsLatest(s.catalog[a], h, s.auctions[a]);
    if row != Fresh(row) {
      var m :| 0 <= m < |s.log| && Carries(row, s.log[m].bid);
      assert row.id == Fresh(row).id == s.catalog[a].id == a;
      var k := LogReachesHistory(s.log, m);
      assert k == |h| - 1;
    }
  }

  lemma HeldRowIsReadable(s: State, c: CallId)
    requires Inv(s) && c in s.calls && s.calls[c].pc.Committing?
    ensures ReadOk(s.catalog, s.log, s.calls[c].command.auction, s.calls[c].pc.row)
    ensures s.calls[c].pc.bid.version == s.calls[c].pc.row.version + 1
    ensures s.calls[c].pc.bid.auction == s.calls[c].command.auction
    ensures s.calls[c].command.auction in s.auctions && s.calls[c].command.auction in s.catalog
  {
    assert CallOk(s.catalog, s.log, s.clock, s.drawn, c, s.calls[c]) && Protected(s.auctions, s.calls[c]);
  }

  /** A commit that shares no version was checked against the row that is the newest when it commits. */
  lemma CommitChecksNewestRow(run: Run, k: nat, c: CallId)
    requires IsRun(run) && CommitStep(run, k, c) && Unshared(run.states[k + 1])
    ensures var s := run.states[k]; var a := s.calls[c].command.auction;
            a in s.auctions && s.calls[c].pc.row == s.auctions[a]
  {
    var s, t := run.states[k], run.states[k + 1];
    var pc, a := s.calls[c].pc, s.calls[c].command.auction;
    assert Follows(run, k);
    assert t == CommitBid(s, c);
    RunKeepsInv(run, k);
    HeldRowIsReadable(s, c);
    var e, h := Commit(pc.bid, c, pc.row, pc.now, pc.guardedAt), History(s.log, a);
    HistoryOfAppend(s.log, e, a);
    UnsharedVersionsCount(run, k + 1, a);
    assert History(t.log, a)[|h|] == e;
    EarlierIsUnshared(run, k, k + 1);
    UnsharedVersionsCount(run, k, a);
    RowOfLastVersion(s, a, pc.row);
  }

  /** Every committed bid is below what the rules require next on its auction. */
  lemma CommittedBidsAreOutbid(run: Run, j: nat, m: nat)
    requires IsRun(run) && j < |run.states| && Unshared(run.states[j]) && m < |run.states[j].log|
    ensures var s, b := run.states[j], run.states[j].log[m].bid;
            b.auction in s.auctions && b.amount < RequiredPrice(s.auctions[b.auction])
  {
    var s := run.states[j];
    var a := s.log[m].bid.auction;
    RunKeepsInv(run, j);
    assert EntryOk(s, m);
    var h := History(s.log, a);
    var k := LogReachesHistory(s.log, m);
    UnsharedVersionsCount(run, j, a);
    RunHistoryIsLinked(run, j, a);
    assert RowIsLatest(s.catalog[a], h, s.auctions[a]);
    SerialPricesRise(h, s.catalog[a], s.auctions[a]);
    RisingMeansLastIsHighest(s.auctions[a], Bids(h), k, |h| - 1);
  }
}
