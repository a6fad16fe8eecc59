/**
 What the checker sees of the committed tables after any run, unsafe calls included: it reports broken versions exactly
 when two commits share a version, and otherwise can only complain about times.
 */
module Anomaly {
  import opened Wrappers
  import opened Models
  import opened Rules
  import opened Checker
  import opened Transactions
  import opened BaseInvariant
  import opened Preservation

  // ----- Listing the bids of an auction

  /** ORDER BY auction_version, accepted_at, id. */
  ghost predicate InOrder(x: Bid, y: Bid) {
    || x.version < y.version
    || (x.version == y.version && (x.acceptedAt < y.acceptedAt || (x.acceptedAt == y.acceptedAt && x.id <= y.id)))
  }

  /** An ordered listing of a table of bids. */
  ghost predicate IsListing(listing: seq<Bid>, table: seq<Bid>) {
    && multiset(listing) == multiset(table)
    && forall i, j | 0 <= i < j < |listing| :: InOrder(listing[i], listing[j])
  }

  lemma SameMembers(p: seq<Bid>, q: seq<Bid>, k: nat) returns (j: nat)
    requires multiset(p) == multiset(q) && k < |p|
    ensures j < |q| && q[j] == p[k]
  {
    assert p[k] in multiset(q);
    j :| 0 <= j < |q| && q[j] == p[k];
  }

  lemma SameLength(p: seq<Bid>, q: seq<Bid>)
    requires multiset(p) == multiset(q)
    ensures |p| == |q|
  {
    assert |multiset(p)| == |p| && |multiset(q)| == |q|;
  }

  lemma MultisetOfFront(q: seq<Bid>)
    requires q != []
    ensures multiset(q[..|q| - 1]) == multiset(q) - multiset{q[|q| - 1]}
  {
    var front := q[..|q| - 1];
    assert q == front + [q[|q| - 1]];
    assert multiset(q) == multiset(front) + multiset{q[|q| - 1]};
  }

  /** Equal last elements leave equal multisets in front. */
  lemma FrontsAgree(p: seq<Bid>, q: seq<Bid>)
    requires multiset(p) == multiset(q) && p != [] && q != [] && p[|p| - 1] == q[|q| - 1]
    ensures multiset(p[..|p| - 1]) == multiset(q[..|q| - 1])
  {
    MultisetOfFront(p);
    MultisetOfFront(q);
  }

  lemma LastOfListing(listing: seq<Bid>, table: seq<Bid>)
    requires IsListing(listing, table) && table != [] && |listing| == |table|
    requires forall k | 0 <= k < |table| :: table[k].version == k + 1
    ensures listing[|table| - 1] == table[|table| - 1]
  {
    var n := |table| - 1;
    var p := SameMembers(table, listing, n);
    var q := SameMembers(listing, table, n);
    assert table[q].version == q + 1;
    if p < n {
      assert InOrder(listing[p], listing[n]);
    }
  }

  /** When versions count up in table order, the only listing is the table itself. */
  lemma {:induction false} ListingOfSerialTable(listing: seq<Bid>, table: seq<Bid>)
    requires IsListing(listing, table)
    requires forall k | 0 <= k < |table| :: table[k].version == k + 1
    ensures listing == table
    decreases |table|
  {
    SameLength(listing, table);
    if table == [] {
    } else {
      var n := |table| - 1;
      LastOfListing(listing, table);
      FrontsAgree(listing, table);
      ListingOfSerialTable(listing[..n], table[..n]);
      assert listing == listing[..n] + [listing[n]] && table == table[..n] + [table[n]];
    }
  }

  // ----- Histories of any run

  lemma {:induction false} HistoryPosition(log: seq<Commit>, a: AuctionId, k: nat) returns (m: nat)
    requires k < |History(log, a)|
    ensures m < |log| && log[m] == History(log, a)[k] && log[m].bid.auction == a
    ensures History(log[..m], a) == History(log, a)[..k]
  {
    var n := |log| - 1;
    var front := History(log[..n], a);
    if k < |front| {
      m := HistoryPosition(log[..n], a, k);
      assert log[..n][..m] == log[..m];
    } else {
      m := n;
    }
  }

  lemma {:induction false} LogReachesHistory(log: seq<Commit>, m: nat) returns (k: nat)
    requires m < |log|
    ensures k < |History(log, log[m].bid.auction)| && History(log, log[m].bid.auction)[k] == log[m]
  {
    var n := |log| - 1;
    if m < n {
      k := LogReachesHistory(log[..n], m);
    } else {
      k := |History(log, log[m].bid.auction)| - 1;
    }
  }

  /** Commit k was checked against the auction as created, or against the row some earlier commit j left. */
  ghost predicate BuildsOn(h: seq<Commit>, created: Auction, k: int, j: int)
    requires 0 <= k < |h|
  {
    if h[k].bid.version == 1 then h[k].bid.amount >= created.startingPrice
    else
      && 0 <= j < k && h[k].bid.version == h[j].bid.version + 1
      && h[k].bid.amount >= h[j].bid.amount + created.increment
  }

  ghost predicate Linked(h: seq<Commit>, created: Auction, k: int)
    requires 0 <= k < |h|
  {
    h[k].bid.version >= 1 && ValidMoney(h[k].bid.amount) && exists j: int :: BuildsOn(h, created, k, j)
  }

  ghost predicate AllLinked(h: seq<Commit>, created: Auction) {
    forall k {:trigger Linked(h, created, k)} | 0 <= k < |h| :: Linked(h, created, k)
  }

  lemma HistoryIsLinked(s: State, a: AuctionId, k: nat)
    requires Inv(s) && a in s.catalog && k < |History(s.log, a)|
    ensures Linked(History(s.log, a), s.catalog[a], k)
  {
    var h := History(s.log, a);
    var m := HistoryPosition(s.log, a, k);
    assert EntryOk(s, m);
    var read := s.log[m].read;
    AcceptanceMeans(read, 0, h[k].bid.amount, h[k].checkedAt);
    if read == Fresh(read) {
      assert BuildsOn(h, s.catalog[a], k, 0);
    } else {
      var i :| 0 <= i < m && Carries(read, s.log[..m][i].bid);
      assert EntryOk(s, i);
      assert s.log[..m][i].bid.auction == a;
      var j := LogReachesHistory(s.log[..m], i);
      assert h[j] == s.log[i];
      assert BuildsOn(h, s.catalog[a], k, j);
    }
  }

  lemma RunHistoryIsLinked(run: Run, i: nat, a: AuctionId)
    requires IsRun(run) && i < |run.states| && a in run.states[i].catalog
    ensures AllLinked(History(run.states[i].log, a), run.states[i].catalog[a])
  {
    RunKeepsInv(run, i);
    var h := History(run.states[i].log, a);
    forall k | 0 <= k < |h| ensures Linked(h, run.states[i].catalog[a], k) {
      HistoryIsLinked(run.states[i], a, k);
    }
  }

  // ----- Versions of a linked history

  /** Every version up to a committed one is committed before it. */
  lemma {:induction false} VersionsHaveNoGap(h: seq<Commit>, created: Auction, k: nat, v: int) returns (j: nat)
    requires AllLinked(h, created) && k < |h| && 1 <= v <= h[k].bid.version
    ensures j <= k && h[j].bid.version == v
    decreases k
  {
    assert Linked(h, created, k);
    if h[k].bid.version == v {
      j := k;
    } else {
      var i: int :| BuildsOn(h, created, k, i);
      j := VersionsHaveNoGap(h, created, i, v);
    }
  }

  /** A version never exceeds its commit position, counted from one. */
  lemma {:induction false} VersionAtMostPosition(h: seq<Commit>, created: Auction, k: nat)
    requires AllLinked(h, created) && k < |h|
    ensures 1 <= h[k].bid.version <= k + 1
    decreases k
  {
    assert Linked(h, created, k);
    if h[k].bid.version <= 1 {
    } else {
      var i: int :| BuildsOn(h, created, k, i);
      VersionAtMostPosition(h, created, i);
    }
  }

  ghost predicate SharedVersion(h: seq<Commit>) {
    exists i, j :: 0 <= i < j < |h| && h[i].bid.version == h[j].bid.version
  }

  ghost predicate Serial(h: seq<Commit>) {
    forall k | 0 <= k < |h| :: h[k].bid.version == k + 1
  }

  /** Without a shared version, commit order is version order. */
  lemma {:induction false} UnsharedIsSerial(h: seq<Commit>, created: Auction, k: nat)
    requires AllLinked(h, created) && !SharedVersion(h) && k < |h|
    ensures h[k].bid.version == k + 1
    decreases k
  {
    VersionAtMostPosition(h, created, k);
    if h[k].bid.version > k {
    } else {
      UnsharedIsSerial(h, created, h[k].bid.version - 1);
    }
  }

  /** If the last commit carries the greatest possible version, all commits are in version order. */
  lemma {:induction false} FullVersionIsSerial(h: seq<Commit>, created: Auction, n: nat, k: nat)
    requires AllLinked(h, created) && k < n <= |h| && h[n - 1].bid.version == n
    ensures h[k].bid.version == k + 1
    decreases n
  {
    if k == n - 1 {
    } else {
      assert Linked(h, created, n - 1);
      var i: int :| BuildsOn(h, created, n - 1, i);
      VersionAtMostPosition(h, created, i);
      FullVersionIsSerial(h, created, n - 1, k);
    }
  }

  /** A serial history passes every price check. */
  lemma SerialPricesRise(h: seq<Commit>, created: Auction, a: Auction)
    requires AllLinked(h, created) && Serial(h) && Fresh(a) == created
    ensures PricesRise(a, Bids(h))
  {
    forall k {:trigger PriceRises(a, Bids(h), k)} | 0 <= k < |Bids(h)| ensures PriceRises(a, Bids(h), k) {
      assert Linked(h, created, k);
      var i: int :| BuildsOn(h, created, k, i);
      if k > 0 {
        assert h[i].bid.version == i + 1;
      }
    }
  }

  // ----- What the checker reports

  ghost predicate Reports(r: Report, code: Violation -> bool) {
    exists v :: v in r.violations && code(v)
  }

  predicate IsVersionSequence(v: Violation) {
    v.VersionSequence?
  }

  predicate IsAuctionVersion(v: Violation) {
    v.AuctionVersion?
  }

  lemma InConcatenation<T>(p: seq<T>, q: seq<T>, r: seq<T>, x: T)
    ensures x in p + q + r <==> x in p || x in q || x in r
  {
  }

  predicate IsVersionCode(v: Violation) {
    IsVersionSequence(v) || IsAuctionVersion(v)
  }

  /** Only the version checks yield version codes. */
  lemma VersionCodesComeFirst(a: Auction, bids: seq<Bid>, w: Option<Bid>, highest: Bid, v: Violation)
    requires IsVersionCode(v)
    ensures v in ListingViolations(a, bids, w, highest) <==> v in VersionViolations(a, bids)
  {
    HistoryKinds(a, bids, |bids|);
    InConcatenation(VersionViolations(a, bids), HistoryViolations(a, bids, |bids|), WinnerViolations(a, w, highest), v);
  }

  lemma VersionViolationsExactly(a: Auction, bids: seq<Bid>)
    ensures (exists v :: v in VersionViolations(a, bids) && IsVersionSequence(v)) <==>
            Versions(bids) != ExpectedVersions(|bids|)
    ensures (exists v :: v in VersionViolations(a, bids) && IsAuctionVersion(v)) <==> a.version != |bids|
  {
    var versions := VersionViolations(a, bids);
    if Versions(bids) != ExpectedVersions(|bids|) {
      assert versions[0] in versions && IsVersionSequence(versions[0]);
    }
    if a.version != |bids| {
      assert versions[|versions| - 1] in versions && IsAuctionVersion(versions[|versions| - 1]);
    }
  }

  /** The two version codes come from the version checks alone. */
  lemma VersionCodes(a: Auction, bids: seq<Bid>, report: Report)
    requires bids != [] && IsReport(a.id, Some(a), bids, report)
    ensures Reports(report, IsVersionSequence) <==> Versions(bids) != ExpectedVersions(|bids|)
    ensures Reports(report, IsAuctionVersion) <==> a.version != |bids|
  {
    var k, w :| IsListingReport(a.id, a, bids, k, w, report);
    forall v | IsVersionCode(v) ensures v in report.violations <==> v in VersionViolations(a, bids) {
      VersionCodesComeFirst(a, bids, w, bids[k], v);
    }
    VersionViolationsExactly(a, bids);
  }

  lemma {:induction false} HistoryKinds(a: Auction, bids: seq<Bid>, n: nat)
    requires n <= |bids|
    ensures forall v | v in HistoryViolations(a, bids, n) :: v.NonMonotonicBid? || v.AcceptedOutsideWindow?
  {
    if n == 0 {
    } else {
      HistoryKinds(a, bids, n - 1);
    }
  }

  /** On a listing with counting versions, rising prices and its last bid as winner, only times can be reported. */
  lemma OnlyTimesReported(a: Auction, bids: seq<Bid>, report: Report)
    requires ValidAuction(a) && bids != [] && DistinctIds(bids) && PricesRise(a, bids)
    requires a.version == |bids| && forall k | 0 <= k < |bids| :: bids[k].version == k + 1
    requires a.winner == Some(bids[|bids| - 1].id) && a.currentPrice == Some(bids[|bids| - 1].amount)
    requires IsReport(a.id, Some(a), bids, report)
    ensures report.violations == HistoryViolations(a, bids, |bids|)
  {
    var k, w :| IsListingReport(a.id, a, bids, k, w, report);
    WinnerCodes(a, bids, k, w);
    VersionsClean(a, bids);
  }

  /** With rising prices the history part reports nothing but times, and nothing exactly when all are inside. */
  lemma HistoryReportsTimes(a: Auction, bids: seq<Bid>)
    requires PricesRise(a, bids)
    ensures forall v | v in HistoryViolations(a, bids, |bids|) :: v.AcceptedOutsideWindow?
    ensures HistoryViolations(a, bids, |bids|) == [] <==> InsideWindow(a, bids)
  {
    RisingLeavesWindowOnly(a, bids, |bids|);
    HistoryClean(a, bids, |bids|);
    forall i | 0 <= i < |bids| ensures BidFits(a, bids, i) <==> TimeInside(a, bids[i]) {
      assert PriceRises(a, bids, i);
    }
  }

  lemma EmptyReport(a: Auction, report: Report)
    requires a == Fresh(a) && IsReport(a.id, Some(a), [], report)
    ensures report.violations == []
  {
  }

  /** On a serial history the checker can only report times outside the window. */
  lemma SerialReport(a: Auction, h: seq<Commit>, created: Auction, report: Report)
    requires ValidAuction(a) && Fresh(a) == created && AllLinked(h, created) && Serial(h)
    requires DistinctIds(Bids(h)) && RowIsLatest(created, h, a)
    requires IsReport(a.id, Some(a), Bids(h), report)
    ensures forall v | v in report.violations :: v.AcceptedOutsideWindow?
    ensures report.violations == [] <==> InsideWindow(a, Bids(h))
  {
    var bids := Bids(h);
    if h == [] {
      assert bids == [];
      EmptyReport(a, report);
    } else {
      SerialPricesRise(h, created, a);
      OnlyTimesReported(a, bids, report);
      HistoryReportsTimes(a, bids);
    }
  }

  // ----- Main results

  lemma HistoryIdsDistinct(s: State, a: AuctionId)
    requires Inv(s)
    ensures DistinctIds(Bids(History(s.log, a)))
  {
    var h := History(s.log, a);
    forall i, j | 0 <= i < j < |h| ensures h[i].bid.id != h[j].bid.id {
      var m := HistoryPosition(s.log, a, i);
      var n := HistoryPosition(s.log, a, j);
      assert EntryOk(s, m) && EntryOk(s, n);
      assert m != n by {
        assert |History(s.log[..m], a)| == i && |History(s.log[..n], a)| == j;
      }
    }
  }

  /** Two listed bids share a version exactly when two commits do. */
  lemma ListingShares(listing: seq<Bid>, h: seq<Commit>)
    requires IsListing(listing, Bids(h)) && SharedVersion(h)
    ensures Versions(listing) != ExpectedVersions(|listing|)
  {
    var table := Bids(h);
    SameLength(listing, table);
    if Versions(listing) == ExpectedVersions(|listing|) {
      forall k | 0 <= k < |listing| ensures listing[k].version == k + 1 {
        assert Versions(listing)[k] == k + 1;
      }
      DistinctVersionsOfPermutation(listing, table);
      assert false;
    }
  }

  lemma DistinctVersionsOfPermutation(listing: seq<Bid>, table: seq<Bid>)
    requires multiset(listing) == multiset(table)
    requires forall k | 0 <= k < |listing| :: listing[k].version == k + 1
    ensures forall i, j | 0 <= i < j < |table| :: table[i].version != table[j].version
  {
    forall i, j | 0 <= i < j < |table| ensures table[i].version != table[j].version {
      if table[i].version == table[j].version {
        var m := SameMembers(table, listing, i);
        var n := SameMembers(table, listing, j);
        assert m == n;
        RepeatedElement(table, i, j);
        NoRepeatedElement(listing, m);
        assert false;
      }
    }
  }

  lemma RepeatedElement(q: seq<Bid>, i: nat, j: nat)
    requires i < j < |q| && q[i] == q[j]
    ensures multiset(q)[q[i]] >= 2
  {
    assert q == q[..j] + q[j..];
    assert q[..j][i] == q[i] && q[i] in multiset(q[..j]);
    assert q[j..][0] == q[i] && q[i] in multiset(q[j..]);
  }

  lemma NoRepeatedElement(q: seq<Bid>, k: nat)
    requires k < |q| && forall i | 0 <= i < |q| :: q[i].version == i + 1
    ensures multiset(q)[q[k]] == 1
  {
    assert q == q[..k] + [q[k]] + q[k + 1..];
    assert q[k] !in q[..k] && q[k] !in q[k + 1..];
  }
}
