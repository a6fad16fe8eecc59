/**
 The independent oracle over a stored auction row and its bids in listing order, proved to accept exactly the
 states that replaying the bids through the pure rules produces.
 */
module Checker {
  import opened Wrappers
  import opened Models
  import opened Rules

  datatype Violation =
    | AuctionMissing
    | EmptyStateMismatch
    | VersionSequence(expected: seq<int>, actual: seq<int>)
    | AuctionVersion(version: int, count: int)
    | NonMonotonicBid(bid: BidId, amount: int, required: int)
    | AcceptedOutsideWindow(bid: BidId, acceptedAt: Instant)
    | WinnerMissing
    | WinnerPriceMismatch
    | WinnerNotHighest(winner: int, highest: int)

  datatype Report = Report(auction: AuctionId, count: nat, violations: seq<Violation>)

  // ----- What each check reports

  function ExpectedVersions(n: nat): (versions: seq<int>)
    ensures |versions| == n && forall k | 0 <= k < n :: versions[k] == k + 1
  {
    seq(n, k => k + 1)
  }

  function Versions(bids: seq<Bid>): (versions: seq<int>)
    ensures |versions| == |bids| && forall k | 0 <= k < |bids| :: versions[k] == bids[k].version
  {
    seq(|bids|, k requires 0 <= k < |bids| => bids[k].version)
  }

  /** The amount bid k had to reach given the bid listed before it. */
  function RequiredAt(a: Auction, bids: seq<Bid>, k: nat): int
    requires k < |bids|
  {
    if k == 0 then a.startingPrice else bids[k - 1].amount + a.increment
  }

  predicate PriceRises(a: Auction, bids: seq<Bid>, k: nat)
    requires k < |bids|
  {
    RequiredAt(a, bids, k) <= bids[k].amount
  }

  predicate TimeInside(a: Auction, b: Bid) {
    a.startsAt <= b.acceptedAt < a.endsAt
  }

  function VersionViolations(a: Auction, bids: seq<Bid>): seq<Violation> {
    var expected, actual := ExpectedVersions(|bids|), Versions(bids);
    (if actual != expected then [VersionSequence(expected, actual)] else [])
    + (if a.version != |bids| then [AuctionVersion(a.version, |bids|)] else [])
  }

  function PriceViolations(a: Auction, bids: seq<Bid>, k: nat): seq<Violation>
    requires k < |bids|
  {
    if !PriceRises(a, bids, k)
    then [NonMonotonicBid(bids[k].id, bids[k].amount, RequiredAt(a, bids, k))]
    else []
  }

  function WindowViolations(a: Auction, b: Bid): seq<Violation> {
    if TimeInside(a, b) then [] else [AcceptedOutsideWindow(b.id, b.acceptedAt)]
  }

  /** Price and window violations of the first n bids, in the order the loop meets them. */
  function HistoryViolations(a: Auction, bids: seq<Bid>, n: nat): seq<Violation>
    requires n <= |bids|
  {
    if n == 0 then []
    else HistoryViolations(a, bids, n - 1) + PriceViolations(a, bids, n - 1) + WindowViolations(a, bids[n - 1])
  }

  function WinnerViolations(a: Auction, winner: Option<Bid>, highest: Bid): seq<Violation> {
    if winner.None? then [WinnerMissing]
    else (if a.currentPrice != Some(winner.value.amount) then [WinnerPriceMismatch] else [])
         + (if winner.value.id != highest.id then [WinnerNotHighest(winner.value.amount, highest.amount)] else [])
  }

  /** The position of the first bid with the greatest amount. */
  ghost predicate FirstHighest(bids: seq<Bid>, k: int) {
    && 0 <= k < |bids|
    && (forall j | 0 <= j < |bids| :: bids[j].amount <= bids[k].amount)
    && (forall j | 0 <= j < k :: bids[j].amount < bids[k].amount)
  }

  /** The first bid carrying the stored winner's identifier, if any. */
  ghost predicate FirstWinner(a: Auction, bids: seq<Bid>, w: Option<Bid>) {
    match w
    case None => forall j | 0 <= j < |bids| :: Some(bids[j].id) != a.winner
    case Some(b) =>
      exists k | 0 <= k < |bids| ::
        b == bids[k] && Some(b.id) == a.winner && forall j | 0 <= j < k :: Some(bids[j].id) != a.winner
  }

  /** The violations of a non-empty listing, given its first highest bid and its winner. */
  function ListingViolations(a: Auction, bids: seq<Bid>, winner: Option<Bid>, highest: Bid): seq<Violation> {
    VersionViolations(a, bids) + HistoryViolations(a, bids, |bids|) + WinnerViolations(a, winner, highest)
  }

  /** A report the checker may give for this row and this listing. */
  ghost predicate IsReport(id: AuctionId, auction: Option<Auction>, bids: seq<Bid>, r: Report) {
    match auction
    case None => r == Report(id, 0, [AuctionMissing])
    case Some(a) =>
      if bids == [] then
        var clean := a.currentPrice.None? && a.winner.None? && a.version == 0;
        r == Report(id, 0, if clean then [] else [EmptyStateMismatch])
      else
        exists h: int, w: Option<Bid> :: IsListingReport(id, a, bids, h, w, r)
  }

  /** The report of a non-empty listing whose first highest bid is at h and whose winner is w. */
  ghost predicate IsListingReport(id: AuctionId, a: Auction, bids: seq<Bid>, h: int, w: Option<Bid>, r: Report) {
    FirstHighest(bids, h) && FirstWinner(a, bids, w) && r == Report(id, |bids|, ListingViolations(a, bids, w, bids[h]))
  }

  // ----- What each code means, in plain comparisons

  /** Bid k is below what the bid listed before it, or for the first the starting price, calls for. */
  ghost predicate PriceFaultAt(a: Auction, bids: seq<Bid>, k: int, v: Violation) {
    && 0 <= k < |bids| && v.NonMonotonicBid?
    && v.bid == bids[k].id && v.amount == bids[k].amount
    && v.required == (if k == 0 then a.startingPrice else bids[k - 1].amount + a.increment)
    && v.amount < v.required
  }

  /** Bid k was stamped before the start, or at or after the end. */
  ghost predicate WindowFaultAt(a: Auction, bids: seq<Bid>, k: int, v: Violation) {
    && 0 <= k < |bids| && v.AcceptedOutsideWindow?
    && v.bid == bids[k].id && v.acceptedAt == bids[k].acceptedAt
    && (v.acceptedAt < a.startsAt || a.endsAt <= v.acceptedAt)
  }

  ghost predicate HistoryFault(a: Auction, bids: seq<Bid>, n: nat, v: Violation) {
    exists k :: 0 <= k < n && (PriceFaultAt(a, bids, k, v) || WindowFaultAt(a, bids, k, v))
  }

  /** Bid k is the first with the stored winner's identifier. */
  ghost predicate IsWinner(a: Auction, bids: seq<Bid>, k: int) {
    0 <= k < |bids| && a.winner == Some(bids[k].id) && forall j | 0 <= j < k :: a.winner != Some(bids[j].id)
  }

  /** This row and this non-empty listing deserve this violation. */
  ghost predicate Deserves(a: Auction, bids: seq<Bid>, v: Violation) {
    match v
    case VersionSequence(expected, actual) =>
      && |expected| == |actual| == |bids| && expected != actual
      && forall k | 0 <= k < |bids| :: expected[k] == k + 1 && actual[k] == bids[k].version
    case AuctionVersion(version, count) => version == a.version && count == |bids| && version != count
    case NonMonotonicBid(_, _, _) => HistoryFault(a, bids, |bids|, v)
    case AcceptedOutsideWindow(_, _) => HistoryFault(a, bids, |bids|, v)
    case WinnerMissing => forall k | 0 <= k < |bids| :: a.winner != Some(bids[k].id)
    case WinnerPriceMismatch => exists k :: IsWinner(a, bids, k) && a.currentPrice != Some(bids[k].amount)
    case WinnerNotHighest(winner, highest) =>
      exists k, m :: IsWinner(a, bids, k) && FirstHighest(bids, m) && bids[k].id != bids[m].id
        && winner == bids[k].amount && highest == bids[m].amount
    case AuctionMissing => false
    case EmptyStateMismatch => false
  }

  /** Which of the checks a code comes from, in the order in which they are made. */
  function Stage(v: Violation): int {
    match v
    case AuctionMissing => 0
    case EmptyStateMismatch => 0
    case VersionSequence(_, _) => 1
    case AuctionVersion(_, _) => 2
    case NonMonotonicBid(_, _, _) => 3
    case AcceptedOutsideWindow(_, _) => 3
    case WinnerMissing => 4
    case WinnerPriceMismatch => 4
    case WinnerNotHighest(_, _) => 5
  }

  ghost predicate ConcernsBid(bids: seq<Bid>, k: int, v: Violation) {
    && 0 <= k < |bids|
    && ((v.NonMonotonicBid? && v.bid == bids[k].id) || (v.AcceptedOutsideWindow? && v.bid == bids[k].id))
  }

  /** Checks in order, and in the history bids in listing order, the price of each before its time. */
  ghost predicate Precedes(bids: seq<Bid>, v: Violation, w: Violation) {
    || Stage(v) < Stage(w)
    || exists i, j :: ConcernsBid(bids, i, v) && ConcernsBid(bids, j, w)
         && (i < j || (i == j && v.NonMonotonicBid? && w.AcceptedOutsideWindow?))
  }

  ghost predicate InReportOrder(bids: seq<Bid>, violations: seq<Violation>) {
    forall i, j | 0 <= i < j < |violations| :: Precedes(bids, violations[i], violations[j])
  }

  /** What a report says, code by code and field by field, and in which order. */
  ghost predicate SaysWhatIsDeserved(id: AuctionId, auction: Option<Auction>, bids: seq<Bid>, r: Report) {
    && r.auction == id
    && match auction
       case None => r.count == 0 && r.violations == [AuctionMissing]
       case Some(a) =>
         && r.count == |bids|
         && if bids == [] then
              r.violations == if a.currentPrice == None && a.winner == None && a.version == 0 then []
                              else [EmptyStateMismatch]
            else
              && (forall v :: v in r.violations <==> Deserves(a, bids, v))
              && InReportOrder(bids, r.violations)
  }

  lemma {:induction false} HistoryCodes(a: Auction, bids: seq<Bid>, n: nat, v: Violation)
    requires n <= |bids|
    ensures v in HistoryViolations(a, bids, n) <==> HistoryFault(a, bids, n, v)
  {
    if n == 0 {
    } else {
      HistoryCodes(a, bids, n - 1, v);
      var front := HistoryViolations(a, bids, n - 1);
      var price, window := PriceViolations(a, bids, n - 1), WindowViolations(a, bids[n - 1]);
      assert v in front + price + window <==> v in front || v in price || v in window;
      assert v in price <==> PriceFaultAt(a, bids, n - 1, v);
      assert v in window <==> WindowFaultAt(a, bids, n - 1, v);
    }
  }

  lemma VersionCodesMean(a: Auction, bids: seq<Bid>, v: Violation)
    ensures v in VersionViolations(a, bids) <==>
            (v.VersionSequence? || v.AuctionVersion?) && Deserves(a, bids, v)
  {
    var sequence := if Versions(bids) != ExpectedVersions(|bids|)
                    then [VersionSequence(ExpectedVersions(|bids|), Versions(bids))] else [];
    var count := if a.version != |bids| then [AuctionVersion(a.version, |bids|)] else [];
    assert v in sequence + count <==> v in sequence || v in count;
    if v.VersionSequence? && Deserves(a, bids, v) {
      assert v.expected == ExpectedVersions(|bids|) && v.actual == Versions(bids);
    }
  }

  /** The first highest bid and the first winner are unique. */
  lemma FirstsAreUnique(a: Auction, bids: seq<Bid>, w: Option<Bid>, h: int, k: int, m: int)
    requires FirstHighest(bids, h) && FirstWinner(a, bids, w)
    ensures FirstHighest(bids, m) ==> m == h
    ensures IsWinner(a, bids, k) ==> w == Some(bids[k])
  {
  }

  lemma WinnerCodesMean(a: Auction, bids: seq<Bid>, w: Option<Bid>, h: int, v: Violation)
    requires FirstHighest(bids, h) && FirstWinner(a, bids, w)
    ensures v in WinnerViolations(a, w, bids[h]) <==>
            (v.WinnerMissing? || v.WinnerPriceMismatch? || v.WinnerNotHighest?) && Deserves(a, bids, v)
  {
    forall k, m ensures (FirstHighest(bids, m) ==> m == h) && (IsWinner(a, bids, k) ==> w == Some(bids[k])) {
      FirstsAreUnique(a, bids, w, h, k, m);
    }
    if w.Some? {
      var k :| 0 <= k < |bids| && w.value == bids[k] && IsWinner(a, bids, k);
      WinnerFound(a, bids, k, h, v);
      var price := if a.currentPrice != Some(bids[k].amount) then [WinnerPriceMismatch] else [];
      var rank := if bids[k].id != bids[h].id then [WinnerNotHighest(bids[k].amount, bids[h].amount)] else [];
      assert v in price + rank <==> v in price || v in rank;
    } else {
      forall k ensures !IsWinner(a, bids, k) {
      }
    }
  }

  /** What the winner codes come to once the first winner and the first highest bid are known. */
  lemma WinnerFound(a: Auction, bids: seq<Bid>, k: int, h: int, v: Violation)
    requires IsWinner(a, bids, k) && FirstHighest(bids, h)
    ensures v.WinnerMissing? ==> !Deserves(a, bids, v)
    ensures v.WinnerPriceMismatch? ==> (Deserves(a, bids, v) <==> a.currentPrice != Some(bids[k].amount))
    ensures v.WinnerNotHighest? ==>
              (Deserves(a, bids, v) <==>
               bids[k].id != bids[h].id && v == WinnerNotHighest(bids[k].amount, bids[h].amount))
  {
    forall j, m ensures (IsWinner(a, bids, j) ==> j == k) && (FirstHighest(bids, m) ==> m == h) {
    }
    if v.WinnerNotHighest? && Deserves(a, bids, v) {
      var j, m :| IsWinner(a, bids, j) && FirstHighest(bids, m) && bids[j].id != bids[m].id
                  && v.winner == bids[j].amount && v.highest == bids[m].amount;
      assert j == k && m == h;
    }
  }

  lemma {:induction false} HistoryIsOrdered(a: Auction, bids: seq<Bid>, n: nat)
    requires n <= |bids|
    ensures InReportOrder(bids, HistoryViolations(a, bids, n))
    ensures forall v | v in HistoryViolations(a, bids, n) :: exists k :: k < n && ConcernsBid(bids, k, v)
  {
    if n == 0 {
    } else {
      HistoryIsOrdered(a, bids, n - 1);
      var front := HistoryViolations(a, bids, n - 1);
      var last := PriceViolations(a, bids, n - 1) + WindowViolations(a, bids[n - 1]);
      assert HistoryViolations(a, bids, n) == front + last;
      forall v | v in last ensures ConcernsBid(bids, n - 1, v) {
      }
      forall v, w | v in front && w in last ensures Precedes(bids, v, w) {
        var k :| k < n - 1 && ConcernsBid(bids, k, v);
        assert ConcernsBid(bids, n - 1, w);
      }
      BidIsOrdered(a, bids, n - 1);
      OrderedConcatenation(bids, front, last);
    }
  }

  lemma BidIsOrdered(a: Auction, bids: seq<Bid>, k: nat)
    requires k < |bids|
    ensures InReportOrder(bids, PriceViolations(a, bids, k) + WindowViolations(a, bids[k]))
  {
    var price, window := PriceViolations(a, bids, k), WindowViolations(a, bids[k]);
    if price != [] && window != [] {
      assert ConcernsBid(bids, k, price[0]) && ConcernsBid(bids, k, window[0]);
      assert Precedes(bids, price[0], window[0]);
    }
  }

  lemma OrderedConcatenation(bids: seq<Bid>, p: seq<Violation>, q: seq<Violation>)
    requires InReportOrder(bids, p) && InReportOrder(bids, q)
    requires forall v, w | v in p && w in q :: Precedes(bids, v, w)
    ensures InReportOrder(bids, p + q)
  {
    forall i, j | 0 <= i < j < |p + q| ensures Precedes(bids, (p + q)[i], (p + q)[j]) {
      if i < |p| <= j {
        assert (p + q)[i] in p && (p + q)[j] in q;
      }
    }
  }

  lemma ListingCodesMean(a: Auction, bids: seq<Bid>, w: Option<Bid>, h: int, v: Violation)
    requires FirstHighest(bids, h) && FirstWinner(a, bids, w)
    ensures v in ListingViolations(a, bids, w, bids[h]) <==> Deserves(a, bids, v)
  {
    var versions, history := VersionViolations(a, bids), HistoryViolations(a, bids, |bids|);
    var winner := WinnerViolations(a, w, bids[h]);
    VersionCodesMean(a, bids, v);
    HistoryCodes(a, bids, |bids|, v);
    WinnerCodesMean(a, bids, w, h, v);
    assert v in versions + history + winner <==> v in versions || v in history || v in winner;
  }

  lemma StagedConcatenation(bids: seq<Bid>, p: seq<Violation>, q: seq<Violation>, stage: int)
    requires InReportOrder(bids, p) && InReportOrder(bids, q)
    requires (forall v | v in p :: Stage(v) <= stage) && (forall v | v in q :: stage < Stage(v))
    ensures InReportOrder(bids, p + q)
  {
    forall v, w | v in p && w in q ensures Precedes(bids, v, w) {
      assert Stage(v) < Stage(w);
    }
    OrderedConcatenation(bids, p, q);
  }

  lemma VersionsAreOrdered(a: Auction, bids: seq<Bid>)
    ensures InReportOrder(bids, VersionViolations(a, bids))
    ensures forall v | v in VersionViolations(a, bids) :: Stage(v) <= 2
  {
  }

  lemma WinnerIsOrdered(a: Auction, bids: seq<Bid>, w: Option<Bid>, highest: Bid)
    ensures InReportOrder(bids, WinnerViolations(a, w, highest))
    ensures forall v | v in WinnerViolations(a, w, highest) :: 3 < Stage(v)
  {
  }

  lemma ListingIsOrdered(a: Auction, bids: seq<Bid>, w: Option<Bid>, h: int)
    requires FirstHighest(bids, h) && FirstWinner(a, bids, w)
    ensures InReportOrder(bids, ListingViolations(a, bids, w, bids[h]))
  {
    var versions, history := VersionViolations(a, bids), HistoryViolations(a, bids, |bids|);
    var winner := WinnerViolations(a, w, bids[h]);
    VersionsAreOrdered(a, bids);
    HistoryIsOrdered(a, bids, |bids|);
    WinnerIsOrdered(a, bids, w, bids[h]);
    assert forall v | v in history :: Stage(v) == 3;
    StagedConcatenation(bids, versions, history, 2);
    assert forall v | v in versions + history :: v in versions || v in history;
    StagedConcatenation(bids, versions + history, winner, 3);
  }

  /** Every report says exactly what the row and the listing deserve. */
  lemma ReportSaysWhatIsDeserved(id: AuctionId, auction: Option<Auction>, bids: seq<Bid>, r: Report)
    requires IsReport(id, auction, bids, r)
    ensures SaysWhatIsDeserved(id, auction, bids, r)
  {
    if auction.Some? && bids != [] {
      var a := auction.value;
      var h, w :| IsListingReport(id, a, bids, h, w, r);
      forall v ensures v in r.violations <==> Deserves(a, bids, v) {
        ListingCodesMean(a, bids, w, h, v);
      }
      ListingIsOrdered(a, bids, w, h);
    }
  }

  // ----- The checker

  method Highest(bids: seq<Bid>) returns (h: nat)
    requires bids != []
    ensures FirstHighest(bids, h)
  {
    h := 0;
    for k := 1 to |bids|
      invariant 0 <= h < k
      invariant forall j | 0 <= j < k :: bids[j].amount <= bids[h].amount
      invariant forall j | 0 <= j < h :: bids[j].amount < bids[h].amount
    {
      if bids[k].amount > bids[h].amount {
        h := k;
      }
    }
  }

  method FindWinner(a: Auction, bids: seq<Bid>) returns (w: Option<Bid>)
    ensures FirstWinner(a, bids, w)
  {
    for k := 0 to |bids|
      invariant forall j | 0 <= j < k :: Some(bids[j].id) != a.winner
    {
      if Some(bids[k].id) == a.winner {
        return Some(bids[k]);
      }
    }
    w := None;
  }

  /** The stored winner against the highest bid of a non-empty listing. */
  method CheckWinner(a: Auction, bids: seq<Bid>) returns (h: nat, winner: Option<Bid>, violations: seq<Violation>)
    requires bids != []
    ensures FirstHighest(bids, h) && FirstWinner(a, bids, winner)
    ensures violations == WinnerViolations(a, winner, bids[h])
  {
    violations := [];
    h := Highest(bids);
    winner := FindWinner(a, bids);
    if winner.None? {
      violations := violations + [WinnerMissing];
    } else {
      if a.currentPrice != Some(winner.value.amount) {
        violations := violations + [WinnerPriceMismatch];
      }
      if winner.value.id != bids[h].id {
        violations := violations + [WinnerNotHighest(winner.value.amount, bids[h].amount)];
      }
    }
  }

  lemma Regroup<T>(p: seq<T>, q: seq<T>, r: seq<T>, t: seq<T>)
    ensures p + q + r + t == p + (q + r + t)
  {
  }

  /** The loop over the bids, adding to the violations found before it. */
  method CheckHistory(a: Auction, bids: seq<Bid>, before: seq<Violation>) returns (violations: seq<Violation>)
    ensures violations == before + HistoryViolations(a, bids, |bids|)
    ensures forall v :: v in violations <==> v in before || HistoryFault(a, bids, |bids|, v)
  {
    violations := before;
    var previousPrice: Option<int> := None;
    for k := 0 to |bids|
      invariant previousPrice == if k == 0 then None else Some(bids[k - 1].amount)
      invariant violations == before + HistoryViolations(a, bids, k)
    {
      Regroup(before, HistoryViolations(a, bids, k), PriceViolations(a, bids, k), WindowViolations(a, bids[k]));
      ghost var entry := violations;
      var required := if previousPrice.None? then a.startingPrice else previousPrice.value + a.increment;
      if bids[k].amount < required {
        violations := violations + [NonMonotonicBid(bids[k].id, bids[k].amount, required)];
      }
      assert violations == entry + PriceViolations(a, bids, k);
      previousPrice := Some(bids[k].amount);
      if !(a.startsAt <= bids[k].acceptedAt < a.endsAt) {
        violations := violations + [AcceptedOutsideWindow(bids[k].id, bids[k].acceptedAt)];
      }
      assert violations == entry + PriceViolations(a, bids, k) + WindowViolations(a, bids[k]);
    }
    forall v ensures v in HistoryViolations(a, bids, |bids|) <==> HistoryFault(a, bids, |bids|, v) {
      HistoryCodes(a, bids, |bids|, v);
    }
  }

  method CheckAuctionInvariants(id: AuctionId, auction: Option<Auction>, bids: seq<Bid>) returns (report: Report)
    ensures IsReport(id, auction, bids, report)
    ensures SaysWhatIsDeserved(id, auction, bids, report)
  {
    if auction.None? {
      return Report(id, 0, [AuctionMissing]);
    }
    var a := auction.value;
    var violations: seq<Violation> := [];
    if bids == [] {
      if a.currentPrice.Some? || a.winner.Some? || a.version != 0 {
        violations := violations + [EmptyStateMismatch];
      }
      return Report(id, 0, violations);
    }

    var expected, actual := ExpectedVersions(|bids|), Versions(bids);
    if actual != expected {
      violations := violations + [VersionSequence(expected, actual)];
    }
    if a.version != |bids| {
      violations := violations + [AuctionVersion(a.version, |bids|)];
    }
    assert violations == VersionViolations(a, bids);
    violations := CheckHistory(a, bids, violations);

    var h, winner, winnerPart := CheckWinner(a, bids);
    report := Report(id, |bids|, violations + winnerPart);
    assert IsListingReport(id, a, bids, h, winner, report);
    ReportSaysWhatIsDeserved(id, auction, bids, report);
  }

  // ----- Which codes a report contains

  /** Every price check passes. */
  ghost predicate PricesRise(a: Auction, bids: seq<Bid>) {
    forall k {:trigger PriceRises(a, bids, k)} | 0 <= k < |bids| :: PriceRises(a, bids, k)
  }

  /** Bid k passes its price check and its window check. */
  ghost predicate BidFits(a: Auction, bids: seq<Bid>, k: int) {
    0 <= k < |bids| && PriceRises(a, bids, k) && TimeInside(a, bids[k])
  }

  /** Bid k also carries the version its position calls for. */
  ghost predicate BidInSequence(a: Auction, bids: seq<Bid>, k: int) {
    BidFits(a, bids, k) && bids[k].version == k + 1
  }

  ghost predicate InsideWindow(a: Auction, bids: seq<Bid>) {
    forall k {:trigger TimeInside(a, bids[k])} | 0 <= k < |bids| :: TimeInside(a, bids[k])
  }

  ghost predicate DistinctIds(bids: seq<Bid>) {
    forall i, j | 0 <= i < j < |bids| :: bids[i].id != bids[j].id
  }

  ghost predicate AllMoneyValid(bids: seq<Bid>) {
    forall k | 0 <= k < |bids| :: ValidMoney(bids[k].amount)
  }

  /** The history part of a report is empty exactly when every price rises and every time is inside. */
  lemma {:induction false} HistoryClean(a: Auction, bids: seq<Bid>, n: nat)
    requires n <= |bids|
    ensures HistoryViolations(a, bids, n) == [] <==> forall k | 0 <= k < n :: BidFits(a, bids, k)
  {
    if n == 0 {
    } else {
      HistoryClean(a, bids, n - 1);
      assert BidFits(a, bids, n - 1) <==> PriceViolations(a, bids, n - 1) + WindowViolations(a, bids[n - 1]) == [];
    }
  }

  /** With rising prices the history part holds window violations only. */
  lemma {:induction false} RisingLeavesWindowOnly(a: Auction, bids: seq<Bid>, n: nat)
    requires n <= |bids|
    requires PricesRise(a, bids)
    ensures forall v | v in HistoryViolations(a, bids, n) :: v.AcceptedOutsideWindow?
  {
    if n == 0 {
    } else {
      RisingLeavesWindowOnly(a, bids, n - 1);
      assert PriceRises(a, bids, n - 1);
    }
  }

  /** Rising prices put the greatest amount in the last position only. */
  lemma {:induction false} RisingMeansLastIsHighest(a: Auction, bids: seq<Bid>, i: nat, j: nat)
    requires ValidMoney(a.increment)
    requires PricesRise(a, bids)
    requires i <= j < |bids|
    ensures bids[i].amount + (j - i) <= bids[j].amount
    ensures i < j ==> bids[i].amount < bids[j].amount
    decreases j
  {
    if i == j {
    } else {
      RisingMeansLastIsHighest(a, bids, i, j - 1);
      assert PriceRises(a, bids, j);
    }
  }

  // ----- Replaying a listing through the pure rules

  /** Apply the first n bids at their acceptance times; fails unless each is accepted and given its own version. */
  function ReplayPrefix(start: Auction, bids: seq<Bid>, n: nat): Option<Auction>
    requires n <= |bids|
  {
    if n == 0 then Some(start)
    else
      match ReplayPrefix(start, bids, n - 1)
      case None => None
      case Some(a) =>
        var b := bids[n - 1];
        var next := ApplyAcceptedBid(a, b.id, b.amount, b.acceptedAt);
        if next.Ok? && next.value.version == b.version then Some(next.value) else None
  }

  /** The row that the first n bids of a faultless listing leave behind. */
  function RowAfter(start: Auction, bids: seq<Bid>, n: nat): Auction
    requires n <= |bids|
  {
    if n == 0 then Fresh(start)
    else Fresh(start).(currentPrice := Some(bids[n - 1].amount), winner := Some(bids[n - 1].id), version := n)
  }

  /** A prefix replays exactly when versions count up, prices rise and times lie in the window; no step overflows. */
  lemma {:induction false} ReplayCharacterised(a: Auction, bids: seq<Bid>, n: nat)
    requires ValidAuction(a)
    requires n <= |bids|
    requires AllMoneyValid(bids)
    ensures ValidAuction(RowAfter(a, bids, n)) || ReplayPrefix(Fresh(a), bids, n).None?
    ensures ReplayPrefix(Fresh(a), bids, n).Some? ==> ReplayPrefix(Fresh(a), bids, n).value == RowAfter(a, bids, n)
    ensures ReplayPrefix(Fresh(a), bids, n).Some? <==>
            forall k | 0 <= k < n :: BidInSequence(a, bids, k)
  {
    if n == 0 {
    } else {
      ReplayCharacterised(a, bids, n - 1);
      var row := RowAfter(a, bids, n - 1);
      assert RequiredPrice(row) == RequiredAt(a, bids, n - 1);
      if ReplayPrefix(Fresh(a), bids, n - 1).Some? {
        AcceptanceMeans(row, bids[n - 1].id, bids[n - 1].amount, bids[n - 1].acceptedAt);
        assert Accepts(row, bids[n - 1].amount, bids[n - 1].acceptedAt) <==> BidFits(a, bids, n - 1);
        assert ReplayPrefix(Fresh(a), bids, n).Some? <==> BidInSequence(a, bids, n - 1);
      }
    }
  }

  /** The stored row and listing are what a sequential auction, started fresh, ends in. */
  ghost predicate SequentialHistory(a: Auction, bids: seq<Bid>) {
    ReplayPrefix(Fresh(a), bids, |bids|) == Some(a)
  }

  /** The winner checks pass exactly when the row carries the last bid of a rising listing. */
  lemma WinnerCodes(a: Auction, bids: seq<Bid>, h: int, w: Option<Bid>)
    requires ValidAuction(a)
    requires bids != [] && DistinctIds(bids)
    requires PricesRise(a, bids)
    requires FirstHighest(bids, h) && FirstWinner(a, bids, w)
    ensures WinnerViolations(a, w, bids[h]) == [] <==>
            a.winner == Some(bids[|bids| - 1].id) && a.currentPrice == Some(bids[|bids| - 1].amount)
  {
    var last := |bids| - 1;
    if h < last {
      RisingMeansLastIsHighest(a, bids, h, last);
    }
    assert h == last;
    if a.winner == Some(bids[last].id) {
      assert w.Some? && w.value.id == bids[last].id;
      assert w.value == bids[last];
    }
  }

  lemma VersionsClean(a: Auction, bids: seq<Bid>)
    ensures VersionViolations(a, bids) == [] <==>
            (forall k | 0 <= k < |bids| :: bids[k].version == k + 1) && a.version == |bids|
  {
    if forall k | 0 <= k < |bids| :: bids[k].version == k + 1 {
      assert Versions(bids) == ExpectedVersions(|bids|);
    } else {
      var k :| 0 <= k < |bids| && bids[k].version != k + 1;
      assert Versions(bids)[k] != ExpectedVersions(|bids|)[k];
    }
  }

  /**
   A listing without violations has counting versions, fitting bids, and a row carrying the last bid; and
   conversely.
   */
  lemma ListingClean(a: Auction, bids: seq<Bid>, w: Option<Bid>, h: int)
    requires ValidAuction(a)
    requires bids != [] && DistinctIds(bids)
    requires FirstHighest(bids, h) && FirstWinner(a, bids, w)
    ensures ListingViolations(a, bids, w, bids[h]) == [] <==>
            && (forall k | 0 <= k < |bids| :: BidInSequence(a, bids, k))
            && a == RowAfter(a, bids, |bids|)
  {
    HistoryClean(a, bids, |bids|);
    VersionsClean(a, bids);
    if forall k | 0 <= k < |bids| :: BidFits(a, bids, k) {
      assert PricesRise(a, bids) by {
        forall k | 0 <= k < |bids| ensures PriceRises(a, bids, k) {
          assert BidFits(a, bids, k);
        }
      }
      WinnerCodes(a, bids, h, w);
      assert (forall k | 0 <= k < |bids| :: BidInSequence(a, bids, k))
        <==> (forall k | 0 <= k < |bids| :: bids[k].version == k + 1) by {
        forall k | 0 <= k < |bids| ensures BidInSequence(a, bids, k) <==> bids[k].version == k + 1 {
          assert BidFits(a, bids, k);
        }
      }
    } else {
      var k :| 0 <= k < |bids| && !BidFits(a, bids, k);
      assert !BidInSequence(a, bids, k);
    }
  }

  /** The checker reports nothing exactly on the states a sequential auction can produce. */
  lemma CheckerSoundAndComplete(a: Auction, bids: seq<Bid>, report: Report)
    requires ValidAuction(a)
    requires AllMoneyValid(bids) && DistinctIds(bids)
    requires IsReport(a.id, Some(a), bids, report)
    ensures report.violations == [] <==> SequentialHistory(a, bids)
  {
    ReplayCharacterised(a, bids, |bids|);
    if bids != [] {
      var h, w :| IsListingReport(a.id, a, bids, h, w, report);
      ListingClean(a, bids, w, h);
    }
  }
}
