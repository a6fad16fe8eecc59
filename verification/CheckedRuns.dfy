/** Main results on what the checker reports after runs, and on the acceptance times it judges. */
module CheckedRuns {
  import opened Wrappers
  import opened Models
  import opened Checker
  import opened Transactions
  import opened BaseInvariant
  import opened Preservation
  import opened Progress
  import opened RunSteps
  import opened SafeRefinement
  import opened Anomaly

  /** What is known of one auction's history and row in any reachable state. */
  lemma ReachableTable(run: Run, i: nat, a: AuctionId)
    requires IsRun(run) && i < |run.states| && a in run.states[i].auctions
    ensures var s := run.states[i]; var h := History(s.log, a);
            && a in s.catalog
            && AllLinked(h, s.catalog[a]) && RowIsLatest(s.catalog[a], h, s.auctions[a]) && DistinctIds(Bids(h))
  {
    RunKeepsInv(run, i);
    RunHistoryIsLinked(run, i, a);
    HistoryIdsDistinct(run.states[i], a);
  }

  // ----- Any mix of strategies

  /** A row whose version is the number of bids has no two bids sharing a version. */
  lemma CountingRowIsUnshared(h: seq<Commit>, created: Auction)
    requires AllLinked(h, created) && h != [] && h[|h| - 1].bid.version == |h|
    ensures !SharedVersion(h)
  {
    forall i, j | 0 <= i < j < |h| ensures h[i].bid.version != h[j].bid.version {
      FullVersionIsSerial(h, created, |h|, i);
      FullVersionIsSerial(h, created, |h|, j);
    }
  }

  lemma UnsharedTable(h: seq<Commit>, created: Auction, listing: seq<Bid>)
    requires AllLinked(h, created) && !SharedVersion(h) && IsListing(listing, Bids(h))
    ensures Serial(h) && listing == Bids(h)
  {
    forall k | 0 <= k < |h| ensures h[k].bid.version == k + 1 {
      UnsharedIsSerial(h, created, k);
    }
    ListingOfSerialTable(listing, Bids(h));
  }

  /** Both version checks fail exactly when two commits share a version. */
  lemma VersionChecksMeanShared(h: seq<Commit>, created: Auction, row: Auction, listing: seq<Bid>)
    requires AllLinked(h, created) && h != [] && row.version == h[|h| - 1].bid.version
    requires IsListing(listing, Bids(h))
    ensures |listing| == |h|
    ensures Versions(listing) != ExpectedVersions(|listing|) <==> SharedVersion(h)
    ensures row.version != |listing| <==> SharedVersion(h)
  {
    SameLength(listing, Bids(h));
    if SharedVersion(h) {
      ListingShares(listing, h);
      if row.version == |h| {
        CountingRowIsUnshared(h, created);
        assert false;
      }
    } else {
      UnsharedTable(h, created, listing);
      assert Versions(listing) == ExpectedVersions(|listing|);
    }
  }

  /** On a non-empty listing both version codes are reported exactly when two commits share a version. */
  lemma VersionCodesMeanShared(h: seq<Commit>, created: Auction, row: Auction, listing: seq<Bid>, report: Report)
    requires AllLinked(h, created) && h != [] && RowIsLatest(created, h, row)
    requires IsListing(listing, Bids(h)) && IsReport(row.id, Some(row), listing, report)
    ensures Reports(report, IsVersionSequence) <==> SharedVersion(h)
    ensures Reports(report, IsAuctionVersion) <==> SharedVersion(h)
  {
    VersionChecksMeanShared(h, created, row, listing);
    VersionCodes(row, listing, report);
  }

  /** The version was committed at or before this position. */
  ghost predicate CommittedBy(h: seq<Commit>, version: int, k: int) {
    exists j :: 0 <= j <= k && j < |h| && h[j].bid.version == version
  }

  ghost predicate GapFree(h: seq<Commit>) {
    forall k, v | 0 <= k < |h| && 1 <= v <= h[k].bid.version :: CommittedBy(h, v, k)
  }

  lemma LinkedIsGapFree(h: seq<Commit>, created: Auction)
    requires AllLinked(h, created)
    ensures GapFree(h)
  {
    forall k, v | 0 <= k < |h| && 1 <= v <= h[k].bid.version ensures CommittedBy(h, v, k) {
      var j := VersionsHaveNoGap(h, created, k, v);
    }
  }

  /** What a report says, given the history it was made from. */
  ghost predicate TellsSharing(h: seq<Commit>, row: Auction, listing: seq<Bid>, report: Report) {
    && (Reports(report, IsVersionSequence) <==> SharedVersion(h))
    && (Reports(report, IsAuctionVersion) <==> SharedVersion(h))
    && (!SharedVersion(h) ==>
          && Serial(h) && listing == Bids(h)
          && (forall v | v in report.violations :: v.AcceptedOutsideWindow?)
          && (report.violations == [] <==> InsideWindow(row, listing)))
  }

  lemma LinkedTellsSharing(h: seq<Commit>, created: Auction, row: Auction, listing: seq<Bid>, report: Report)
    requires AllLinked(h, created) && RowIsLatest(created, h, row) && DistinctIds(Bids(h))
    requires IsListing(listing, Bids(h)) && IsReport(row.id, Some(row), listing, report)
    requires created == Fresh(created)
    ensures TellsSharing(h, row, listing, report)
  {
    if h == [] {
      SameLength(listing, Bids(h));
      assert report.violations == [];
    } else {
      VersionCodesMeanShared(h, created, row, listing, report);
      if !SharedVersion(h) {
        UnsharedTable(h, created, listing);
        SerialReport(row, h, created, report);
      }
    }
  }

  /**
   Exact characterisation of the lost update, for every run of any calls: committed versions have no gap; the checker
   reports version_sequence exactly when it reports auction_version exactly when two commits share a version; and with
   no shared version commit order is version order and every check but the time window passes.
   */
  lemma LostUpdatesAreSharedVersions(run: Run, i: nat, a: AuctionId, listing: seq<Bid>, report: Report)
    requires IsRun(run) && i < |run.states| && a in run.states[i].auctions
    requires IsListing(listing, Bids(History(run.states[i].log, a)))
    requires IsReport(run.states[i].auctions[a].id, Some(run.states[i].auctions[a]), listing, report)
    ensures GapFree(History(run.states[i].log, a))
    ensures TellsSharing(History(run.states[i].log, a), run.states[i].auctions[a], listing, report)
  {
    var s := run.states[i];
    ReachableTable(run, i, a);
    LinkedIsGapFree(History(s.log, a), s.catalog[a]);
    LinkedTellsSharing(History(s.log, a), s.catalog[a], s.auctions[a], listing, report);
  }

  // ----- Acceptance times

  /**
   Every bid is stamped at or after the start; an optimistic one also before the end, between two in-window clock
   reads.
   */
  lemma AcceptanceTimesAreBracketed(run: Run, i: nat, k: nat)
    requires IsRun(run) && i < |run.states| && k < |run.states[i].log|
    ensures var s := run.states[i]; var e := s.log[k];
            && e.bid.auction in s.catalog && e.call in s.calls
            && var created := s.catalog[e.bid.auction];
               && created.startsAt <= e.checkedAt <= e.bid.acceptedAt <= s.clock
               && e.checkedAt < created.endsAt
               && (s.calls[e.call].strategy.Optimistic? ==>
                     e.bid.acceptedAt <= e.validatedAt < created.endsAt)
  {
    RunKeepsInv(run, i);
    assert EntryOk(run.states[i], k);
  }

  /** A commit past version one was checked against a row that an earlier commit left, read after that was stamped. */
  lemma PredecessorWasStamped(s: State, a: AuctionId, k: nat) returns (j: nat)
    requires Inv(s) && k < |History(s.log, a)| && History(s.log, a)[k].bid.version > 1
    ensures var h := History(s.log, a);
            && j < |h| && h[j].bid.version == h[k].bid.version - 1
            && h[j].bid.acceptedAt <= h[k].checkedAt <= h[k].bid.acceptedAt
  {
    var m := HistoryPosition(s.log, a, k);
    assert EntryOk(s, m);
    var read := s.log[m].read;
    assert read != Fresh(read);
    var n :| 0 <= n < m && Carries(read, s.log[..m][n].bid) && s.log[..m][n].bid.acceptedAt <= s.log[m].checkedAt;
    assert EntryOk(s, n);
    j := LogReachesHistory(s.log, n);
  }

  /**
   In a safe run the row a commit was checked against is what the commit before it left, read after that was
   stamped.
   */
  lemma ConsecutiveTimes(run: Run, i: nat, a: AuctionId, k: nat)
    requires IsRun(run) && i < |run.states| && NoUnsafe(run.states[i]) && a in run.states[i].catalog
    requires k + 1 < |History(run.states[i].log, a)|
    ensures var h := History(run.states[i].log, a); h[k].bid.acceptedAt <= h[k + 1].checkedAt <= h[k + 1].bid.acceptedAt
  {
    RunKeepsInv(run, i);
    SafeRunsRefineSequentialAuction(run, i, a);
    var j := PredecessorWasStamped(run.states[i], a, k + 1);
  }

  /** Under both safe strategies acceptance times never fall along version order. */
  lemma {:induction false} AcceptanceTimesFollowVersions(run: Run, i: nat, a: AuctionId, j: nat, k: nat)
    requires IsRun(run) && i < |run.states| && NoUnsafe(run.states[i]) && a in run.states[i].catalog
    requires j <= k < |History(run.states[i].log, a)|
    ensures History(run.states[i].log, a)[j].bid.acceptedAt <= History(run.states[i].log, a)[k].bid.acceptedAt
    decreases k
  {
    if j == k {
    } else {
      ConsecutiveTimes(run, i, a, k - 1);
      AcceptanceTimesFollowVersions(run, i, a, j, k - 1);
    }
  }

  // ----- Safe strategies

  /** A bid stamped at or after the end is a pessimistic one, and none is stamped before the start. */
  lemma LateBidsArePessimistic(run: Run, i: nat, a: AuctionId, k: nat)
    requires IsRun(run) && i < |run.states| && NoUnsafe(run.states[i]) && a in run.states[i].auctions
    requires k < |History(run.states[i].log, a)|
    ensures var s := run.states[i]; var e := History(s.log, a)[k];
            && a in s.catalog && e.call in s.calls
            && s.catalog[a].startsAt <= e.bid.acceptedAt
            && (e.bid.acceptedAt >= s.catalog[a].endsAt ==> s.calls[e.call].strategy.Pessimistic?)
  {
    var m := HistoryPosition(run.states[i].log, a, k);
    AcceptanceTimesAreBracketed(run, i, m);
  }

  lemma OnlyPessimisticBidsAreLate(run: Run, i: nat, a: AuctionId)
    requires IsRun(run) && i < |run.states| && NoUnsafe(run.states[i]) && a in run.states[i].auctions
    ensures var s := run.states[i]; var h := History(s.log, a);
            && a in s.catalog
            && (forall k | 0 <= k < |h| :: s.catalog[a].startsAt <= h[k].bid.acceptedAt)
            && (forall k | 0 <= k < |h| && h[k].bid.acceptedAt >= s.catalog[a].endsAt ::
                  h[k].call in s.calls && s.calls[h[k].call].strategy.Pessimistic?)
  {
    var s := run.states[i];
    RunKeepsInv(run, i);
    forall k | 0 <= k < |History(s.log, a)|
      ensures var e := History(s.log, a)[k];
              && s.catalog[a].startsAt <= e.bid.acceptedAt && e.call in s.calls
              && (e.bid.acceptedAt >= s.catalog[a].endsAt ==> s.calls[e.call].strategy.Pessimistic?)
    {
      LateBidsArePessimistic(run, i, a, k);
    }
  }

  lemma InsideMeansBeforeEnd(row: Auction, created: Auction, h: seq<Commit>)
    requires Fresh(row) == created && forall k | 0 <= k < |h| :: created.startsAt <= h[k].bid.acceptedAt
    ensures InsideWindow(row, Bids(h)) <==> forall k | 0 <= k < |h| :: h[k].bid.acceptedAt < created.endsAt
  {
    forall k | 0 <= k < |h| ensures TimeInside(row, Bids(h)[k]) <==> h[k].bid.acceptedAt < created.endsAt {
    }
  }

  lemma SafeRunsAreUnshared(run: Run, i: nat, a: AuctionId)
    requires IsRun(run) && i < |run.states| && NoUnsafe(run.states[i]) && a in run.states[i].catalog
    ensures !SharedVersion(History(run.states[i].log, a))
  {
    SafeRunsRefineSequentialAuction(run, i, a);
  }

  /**
   After any safe run the checker reports at most times outside the window, and those are times of pessimistic bids
   stamped at or after the end; it reports nothing exactly when every bid was stamped before the end.
   */
  lemma SafeRunsCheckUpToTime(run: Run, i: nat, a: AuctionId, listing: seq<Bid>, report: Report)
    requires IsRun(run) && i < |run.states| && NoUnsafe(run.states[i]) && a in run.states[i].auctions
    requires IsListing(listing, Bids(History(run.states[i].log, a)))
    requires IsReport(run.states[i].auctions[a].id, Some(run.states[i].auctions[a]), listing, report)
    ensures var s := run.states[i]; var h := History(s.log, a);
            && a in s.catalog
            && listing == Bids(h)
            && (forall v | v in report.violations :: v.AcceptedOutsideWindow?)
            && (report.violations == [] <==> forall k | 0 <= k < |h| :: h[k].bid.acceptedAt < s.catalog[a].endsAt)
            && (forall k | 0 <= k < |h| && h[k].bid.acceptedAt >= s.catalog[a].endsAt ::
                  h[k].call in s.calls && s.calls[h[k].call].strategy.Pessimistic?)
  {
    var s := run.states[i];
    ReachableTable(run, i, a);
    SafeRunsAreUnshared(run, i, a);
    LostUpdatesAreSharedVersions(run, i, a, listing, report);
    OnlyPessimisticBidsAreLate(run, i, a);
    InsideMeansBeforeEnd(s.auctions[a], s.catalog[a], History(s.log, a));
  }

  /** The commit's pessimistic call issued its insert, at step j, at a clock at or past the end of the auction. */
  ghost predicate IssuedLate(run: Run, j: int, e: Commit, endsAt: Instant) {
    && InsertIssued(run, j, e.call, e.bid.id) && run.states[j].calls[e.call].strategy.Pessimistic?
    && run.states[j].clock >= endsAt
  }

  /** Some commit of the history was issued late. */
  ghost predicate AnyIssuedLate(run: Run, h: seq<Commit>, endsAt: Instant) {
    exists j, k :: 0 <= k < |h| && IssuedLate(run, j, h[k], endsAt)
  }

  lemma LateStampsWereIssuedLate(run: Run, i: nat, a: AuctionId, k: nat)
    requires IsRun(run) && i < |run.states| && NoUnsafe(run.states[i]) && a in run.states[i].auctions
    requires k < |History(run.states[i].log, a)| && a in run.states[i].catalog
    ensures var e, endsAt := History(run.states[i].log, a)[k], run.states[i].catalog[a].endsAt;
            e.bid.acceptedAt >= endsAt <==> exists j :: IssuedLate(run, j, e, endsAt)
  {
    var e, endsAt := History(run.states[i].log, a)[k], run.states[i].catalog[a].endsAt;
    var m := HistoryPosition(run.states[i].log, a, k);
    var j := CommitWasIssued(run, i, m);
    LateBidsArePessimistic(run, i, a, k);
    RunGrows(run, j, i);
    if e.bid.acceptedAt >= endsAt {
      assert IssuedLate(run, j, e, endsAt);
    }
  }

  /**
   In terms of the run: after any safe run the checker reports something if and only if some committed pessimistic call
   issued its insert at a clock at or past the end of the auction.
   */
  lemma ReportsAreLateInserts(run: Run, i: nat, a: AuctionId, listing: seq<Bid>, report: Report)
    requires IsRun(run) && i < |run.states| && NoUnsafe(run.states[i]) && a in run.states[i].auctions
    requires IsListing(listing, Bids(History(run.states[i].log, a)))
    requires IsReport(run.states[i].auctions[a].id, Some(run.states[i].auctions[a]), listing, report)
    ensures a in run.states[i].catalog
    ensures report.violations != [] <==>
            AnyIssuedLate(run, History(run.states[i].log, a), run.states[i].catalog[a].endsAt)
  {
    SafeRunsCheckUpToTime(run, i, a, listing, report);
    var h, endsAt := History(run.states[i].log, a), run.states[i].catalog[a].endsAt;
    forall k | 0 <= k < |h| ensures h[k].bid.acceptedAt >= endsAt <==> exists j :: IssuedLate(run, j, h[k], endsAt) {
      LateStampsWereIssuedLate(run, i, a, k);
    }
  }

  /** While the clock has not reached the end of the auction, the checker reports nothing of a safe run. */
  lemma OpenAuctionsPassTheChecker(run: Run, i: nat, a: AuctionId, listing: seq<Bid>, report: Report)
    requires IsRun(run) && i < |run.states| && NoUnsafe(run.states[i]) && a in run.states[i].auctions
    requires a in run.states[i].catalog ==> run.states[i].clock < run.states[i].catalog[a].endsAt
    requires IsListing(listing, Bids(History(run.states[i].log, a)))
    requires IsReport(run.states[i].auctions[a].id, Some(run.states[i].auctions[a]), listing, report)
    ensures report.violations == []
  {
    ReportsAreLateInserts(run, i, a, listing, report);
    var h, endsAt := History(run.states[i].log, a), run.states[i].catalog[a].endsAt;
    if j, k :| 0 <= k < |h| && IssuedLate(run, j, h[k], endsAt) {
      var m := HistoryPosition(run.states[i].log, a, k);
      var l := CommitWasIssued(run, i, m);
      RunGrows(run, l, i);
      assert false;
    }
  }

  /** After a run of optimistic calls only, the checker reports nothing. */
  lemma OptimisticRunsPassTheChecker(run: Run, i: nat, a: AuctionId, listing: seq<Bid>, report: Report)
    requires IsRun(run) && i < |run.states| && a in run.states[i].auctions
    requires forall c | c in run.states[i].calls :: run.states[i].calls[c].strategy.Optimistic?
    requires IsListing(listing, Bids(History(run.states[i].log, a)))
    requires IsReport(run.states[i].auctions[a].id, Some(run.states[i].auctions[a]), listing, report)
    ensures report.violations == []
  {
    SafeRunsCheckUpToTime(run, i, a, listing, report);
  }

  /** Every reachable row and every row about to be committed satisfies all constraints, unsafe runs included. */
  lemma ConstraintsNeverFire(run: Run, i: nat)
    requires IsRun(run) && i < |run.states|
    ensures var s := run.states[i];
            && s.auctions.Keys == s.catalog.Keys
            && (forall a | a in s.auctions ::
                  && ValidAuction(s.auctions[a]) && Fresh(s.auctions[a]) == s.catalog[a]
                  && (s.auctions[a].winner.Some? ==>
                        exists k :: 0 <= k < |s.log| && s.log[k].bid.auction == a
                            && Some(s.log[k].bid.id) == s.auctions[a].winner))
            && (forall k | 0 <= k < |s.log| ::
                  && ValidBid(s.log[k].bid) && s.log[k].bid.auction in s.auctions
                  && 1 <= |s.log[k].bid.bidder| <= MAX_BIDDER_ID_LENGTH
                     && Strip(s.log[k].bid.bidder) == s.log[k].bid.bidder)
            && (forall c | c in s.calls && s.calls[c].pc.Committing? ::
                  && ValidAuction(s.calls[c].pc.next) && s.calls[c].pc.next.winner == Some(s.calls[c].pc.bid.id)
                  && ValidBid(s.calls[c].pc.bid) && s.calls[c].pc.bid.auction == s.calls[c].command.auction)
  {
    var s := run.states[i];
    RunKeepsInv(run, i);
    forall a | a in s.auctions
      ensures && ValidAuction(s.auctions[a]) && Fresh(s.auctions[a]) == s.catalog[a]
              && (s.auctions[a].winner.Some? ==>
                    exists k :: 0 <= k < |s.log| && s.log[k].bid.auction == a
                        && Some(s.log[k].bid.id) == s.auctions[a].winner)
    {
      var h := History(s.log, a);
      assert RowIsLatest(s.catalog[a], h, s.auctions[a]);
      if h != [] {
        var m := HistoryPosition(s.log, a, |h| - 1);
      }
    }
    forall k | 0 <= k < |s.log|
      ensures && ValidBid(s.log[k].bid) && s.log[k].bid.auction in s.auctions
              && 1 <= |s.log[k].bid.bidder| <= MAX_BIDDER_ID_LENGTH && Strip(s.log[k].bid.bidder) == s.log[k].bid.bidder
    {
      assert EntryOk(s, k);
      StripIsIdempotent(s.calls[s.log[k].call].command.bidder);
    }
    forall c | c in s.calls && s.calls[c].pc.Committing?
      ensures && ValidAuction(s.calls[c].pc.next) && s.calls[c].pc.next.winner == Some(s.calls[c].pc.bid.id)
              && ValidBid(s.calls[c].pc.bid) && s.calls[c].pc.bid.auction == s.calls[c].command.auction
    {
      PendingRowIsValid(s, c);
      assert CallOk(s.catalog, s.log, s.clock, s.drawn, c, s.calls[c]);
    }
  }
}
