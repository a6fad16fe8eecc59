/**
 Domain values shared by every bidding strategy, with the conditions their constructors check.
 Instants are integers, money is an unbounded integer number of cents with the bound written out,
 and identifiers are integers compared only for equality (and, in a listing, for order).
 */
module Models {
  import opened Wrappers

  type AuctionId = int
  type BidId = int
  type RequestId = int
  type Instant = int

  const MAX_MONEY_CENTS: int := 9_000_000_000_000_000
  const MAX_BIDDER_ID_LENGTH: int := 128

  predicate ValidMoney(value: int) {
    0 < value <= MAX_MONEY_CENTS
  }

  datatype AuctionState = Scheduled | Open | Closed

  datatype RejectionReason =
    | AuctionNotFound
    | AuctionNotStarted
    | AuctionClosed
    | BidTooLow
    | RequestIdReused
    | ConflictRetryExhausted

  /** The reasons that the pure rules give. */
  predicate RuleReason(reason: RejectionReason) {
    reason.AuctionNotStarted? || reason.AuctionClosed? || reason.BidTooLow?
  }

  /** An auction row. */
  datatype Auction = Auction(
    id: AuctionId,
    startingPrice: int,
    increment: int,
    startsAt: Instant,
    endsAt: Instant,
    currentPrice: Option<int>,
    winner: Option<BidId>,
    version: int)

  /** The conditions the snapshot constructor checks. */
  predicate ValidAuction(a: Auction) {
    && ValidMoney(a.startingPrice)
    && ValidMoney(a.increment)
    && a.startsAt < a.endsAt
    && a.version >= 0
    && (a.currentPrice.Some? <==> a.winner.Some?)
    && (a.currentPrice.None? ==> a.version == 0)
    && (a.currentPrice.Some? ==>
          && ValidMoney(a.currentPrice.value)
          && a.startingPrice <= a.currentPrice.value
          && a.version != 0)
  }

  /** The same auction as it was created: no price, no winner, version zero. */
  function Fresh(a: Auction): Auction {
    a.(currentPrice := None, winner := None, version := 0)
  }

  datatype Command = Command(request: RequestId, auction: AuctionId, bidder: string, amount: int)

  predicate ValidCommand(c: Command) {
    && 1 <= |Strip(c.bidder)| <= MAX_BIDDER_ID_LENGTH
    && ValidMoney(c.amount)
  }

  /** A stored bid. */
  datatype Bid = Bid(
    id: BidId,
    request: RequestId,
    auction: AuctionId,
    bidder: string,
    amount: int,
    version: int,
    acceptedAt: Instant)

  predicate ValidBid(b: Bid) {
    ValidMoney(b.amount) && b.version > 0
  }

  /** What a call reports. An accepted or replayed outcome has a bid and no reason, a rejection the reverse. */
  datatype Outcome =
    | Accepted(bid: Bid, attempts: int, conflicts: int)
    | Replayed(bid: Bid, attempts: int, conflicts: int)
    | Rejected(reason: RejectionReason, minimum: Option<int>, attempts: int, conflicts: int)

  predicate ValidOutcome(o: Outcome) {
    o.attempts > 0 && o.conflicts >= 0
  }

  // ----- Stripping white space from bidder identifiers

  predicate IsSpace(c: char) {
    var n := c as int;
    || 0x09 <= n <= 0x0d || 0x1c <= n <= 0x20 || n == 0x85 || n == 0xa0 || n == 0x1680
    || 0x2000 <= n <= 0x200a || n == 0x2028 || n == 0x2029 || n == 0x202f || n == 0x205f || n == 0x3000
  }

  function StripLeft(s: string): string {
    if s != [] && IsSpace(s[0]) then StripLeft(s[1..]) else s
  }

  function StripRight(s: string): string {
    if s != [] && IsSpace(s[|s| - 1]) then StripRight(s[..|s| - 1]) else s
  }

  function Strip(s: string): string {
    StripRight(StripLeft(s))
  }

  lemma {:induction false} StripLeftStops(s: string)
    ensures StripLeft(s) == [] || !IsSpace(StripLeft(s)[0])
  {
    if s == [] || !IsSpace(s[0]) {
    } else {
      StripLeftStops(s[1..]);
    }
  }

  lemma {:induction false} StripRightStops(s: string)
    ensures StripRight(s) <= s
    ensures StripRight(s) == [] || !IsSpace(StripRight(s)[|StripRight(s)| - 1])
  {
    if s == [] || !IsSpace(s[|s| - 1]) {
    } else {
      StripRightStops(s[..|s| - 1]);
    }
  }

  /** A stored bidder, being stripped already, passes unchanged through any later strip. */
  lemma StripIsIdempotent(s: string)
    ensures Strip(Strip(s)) == Strip(s)
  {
    StripLeftStops(s);
    StripRightStops(StripLeft(s));
  }

  lemma {:induction false} StripLeftDrops(s: string) returns (dropped: string)
    ensures s == dropped + StripLeft(s) && forall k | 0 <= k < |dropped| :: IsSpace(dropped[k])
  {
    if s == [] || !IsSpace(s[0]) {
      dropped := [];
    } else {
      dropped := StripLeftDrops(s[1..]);
      dropped := [s[0]] + dropped;
    }
  }

  lemma {:induction false} StripRightDrops(s: string) returns (dropped: string)
    ensures s == StripRight(s) + dropped && forall k | 0 <= k < |dropped| :: IsSpace(dropped[k])
  {
    if s == [] || !IsSpace(s[|s| - 1]) {
      dropped := [];
    } else {
      dropped := StripRightDrops(s[..|s| - 1]);
      dropped := dropped + [s[|s| - 1]];
    }
  }

  /** Stripping removes exactly the white space at the two ends. */
  lemma StripRemovesEnds(s: string) returns (left: string, right: string)
    ensures s == left + Strip(s) + right
    ensures forall k | 0 <= k < |left| :: IsSpace(left[k])
    ensures forall k | 0 <= k < |right| :: IsSpace(right[k])
    ensures Strip(s) != [] ==> !IsSpace(Strip(s)[0]) && !IsSpace(Strip(s)[|Strip(s)| - 1])
  {
    left := StripLeftDrops(s);
    right := StripRightDrops(StripLeft(s));
    StripLeftStops(s);
    StripRightStops(StripLeft(s));
  }

  // ----- The constructor and the table constraints

  /** A snapshot is one its constructor takes exactly when its row passes every CHECK of the auctions table. */
  lemma ConstructorAgreesWithChecks(a: Auction)
    ensures ValidAuction(a) <==>
            && 1 <= a.startingPrice <= 9_000_000_000_000_000
            && (a.currentPrice.None? || a.startingPrice <= a.currentPrice.value <= 9_000_000_000_000_000)
            && 1 <= a.increment <= 9_000_000_000_000_000
            && a.endsAt > a.startsAt
            && a.version >= 0
            && ((a.currentPrice.None? && a.winner.None? && a.version == 0)
                || (a.currentPrice.Some? && a.winner.Some? && a.version > 0))
  {
  }
}
