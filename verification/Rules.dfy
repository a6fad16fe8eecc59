/** Pure auction rules: the sequential specification every strategy is measured against. */
module Rules {
  import opened Wrappers
  import opened Models

  datatype RuleError = AmountOutOfRange | MinimumOverflow | NotAcceptable(reason: RejectionReason)

  datatype Evaluation = Evaluation(accepted: bool, state: AuctionState, minimum: int, reason: Option<RejectionReason>)

  function DeriveState(a: Auction, now: Instant): AuctionState {
    if now < a.startsAt then Scheduled else if now >= a.endsAt then Closed else Open
  }

  /** The price rule before the money bound is applied to it. */
  function RequiredPrice(a: Auction): int {
    match a.currentPrice
    case None => a.startingPrice
    case Some(price) => price + a.increment
  }

  function MinimumAcceptable(a: Auction): Result<int, RuleError> {
    if a.currentPrice.None? then Ok(a.startingPrice)
    else if RequiredPrice(a) > MAX_MONEY_CENTS then Err(MinimumOverflow)
    else Ok(RequiredPrice(a))
  }

  /** The minimum is computed before the state is looked at, so an overflow raises even for a closed auction. */
  function EvaluateBid(a: Auction, amount: int, now: Instant): Result<Evaluation, RuleError> {
    if !ValidMoney(amount) then Err(AmountOutOfRange) else
    match MinimumAcceptable(a)
    case Err(e) => Err(e)
    case Ok(minimum) =>
      var state := DeriveState(a, now);
      match state
      case Scheduled => Ok(Evaluation(false, state, minimum, Some(AuctionNotStarted)))
      case Closed => Ok(Evaluation(false, state, minimum, Some(AuctionClosed)))
      case Open =>
        if amount < minimum then Ok(Evaluation(false, state, minimum, Some(BidTooLow)))
        else Ok(Evaluation(true, state, minimum, None))
  }

  predicate Accepts(a: Auction, amount: int, now: Instant) {
    var evaluation := EvaluateBid(a, amount, now);
    evaluation.Ok? && evaluation.value.accepted
  }

  /** The row after an accepted bid. */
  function Successor(a: Auction, bid: BidId, amount: int): Auction {
    a.(currentPrice := Some(amount), winner := Some(bid), version := a.version + 1)
  }

  function ApplyAcceptedBid(a: Auction, bid: BidId, amount: int, now: Instant): Result<Auction, RuleError> {
    match EvaluateBid(a, amount, now)
    case Err(e) => Err(e)
    case Ok(evaluation) =>
      if !evaluation.accepted then Err(NotAcceptable(evaluation.reason.value))
      else Ok(Successor(a, bid, amount))
  }

  // ----- The WHERE clause of the optimistic update

  predicate SqlWindow(a: Auction, now: Instant) {
    now >= a.startsAt && now < a.endsAt
  }

  predicate SqlPrice(a: Auction, amount: int) {
    amount >= if a.currentPrice.None? then a.startingPrice else a.currentPrice.value + a.increment
  }

  /** All conditions of the optimistic update on the row it finds. */
  predicate SqlGuard(a: Auction, version: int, amount: int, now: Instant) {
    a.version == version && SqlWindow(a, now) && SqlPrice(a, amount)
  }

  /** The SQL conditions on time and price hold exactly when the pure rule accepts, overflow included. */
  lemma GuardAgreesWithRule(a: Auction, amount: int, now: Instant)
    requires ValidAuction(a)
    requires ValidMoney(amount)
    ensures SqlWindow(a, now) && SqlPrice(a, amount) <==> Accepts(a, amount, now)
    ensures MinimumAcceptable(a).Err? <==> forall legal | ValidMoney(legal) :: !SqlPrice(a, legal)
    ensures -0x8000_0000_0000_0000 <= RequiredPrice(a) < 0x8000_0000_0000_0000
  {
    assert MAX_MONEY_CENTS + MAX_MONEY_CENTS < 0x8000_0000_0000_0000;
    if MinimumAcceptable(a).Ok? {
      assert ValidMoney(RequiredPrice(a)) && SqlPrice(a, RequiredPrice(a));
    }
    if a.currentPrice.Some? {
      assert RequiredPrice(a) == a.currentPrice.value + a.increment;
    }
  }

  /**
   An accepted bid is in the window of an open auction, at or above the required price, which the evaluation reports,
   and
   leads to a row the constructor takes. Applying a bid that is not accepted fails with the evaluation's own error or
   reason.
   */
  lemma AcceptanceMeans(a: Auction, bid: BidId, amount: int, now: Instant)
    requires ValidAuction(a)
    ensures Accepts(a, amount, now) <==>
            ValidMoney(amount) && a.startsAt <= now < a.endsAt && RequiredPrice(a) <= amount
    ensures Accepts(a, amount, now) <==> ApplyAcceptedBid(a, bid, amount, now).Ok?
    ensures Accepts(a, amount, now) ==>
            EvaluateBid(a, amount, now) == Ok(Evaluation(true, Open, RequiredPrice(a), None))
    ensures Accepts(a, amount, now) ==>
              var next := ApplyAcceptedBid(a, bid, amount, now).value;
              && ValidAuction(next) && Fresh(next) == Fresh(a) && RequiredPrice(a) < RequiredPrice(next)
              && next.currentPrice == Some(amount) && next.winner == Some(bid) && next.version == a.version + 1
  {
  }

  /**
   A refusal says why: the reason and the state tell on which side of the window the time lies, or that the amount is
   short of the required price, which is the minimum it quotes. That minimum is the threshold: on this row, anywhere in
   its window, exactly the legal amounts from it up are accepted.
   */
  lemma RefusalMeans(a: Auction, amount: int, now: Instant, reason: RejectionReason, minimum: int)
    requires ValidAuction(a)
    requires EvaluateBid(a, amount, now).Ok? && !EvaluateBid(a, amount, now).value.accepted
    requires EvaluateBid(a, amount, now).value.reason == Some(reason)
    requires EvaluateBid(a, amount, now).value.minimum == minimum
    ensures reason.AuctionNotStarted? <==> now < a.startsAt
    ensures reason.AuctionClosed? <==> a.endsAt <= now
    ensures reason.BidTooLow? <==> a.startsAt <= now < a.endsAt && amount < RequiredPrice(a)
    ensures reason.AuctionNotStarted? || reason.AuctionClosed? || reason.BidTooLow?
    ensures EvaluateBid(a, amount, now).value.state ==
            if now < a.startsAt then Scheduled else if a.endsAt <= now then Closed else Open
    ensures minimum == RequiredPrice(a) && ValidMoney(minimum) && Accepts(a, minimum, a.startsAt)
    ensures forall x, t | ValidMoney(x) && a.startsAt <= t < a.endsAt :: Accepts(a, x, t) <==> minimum <= x
    ensures forall bid: BidId :: ApplyAcceptedBid(a, bid, amount, now) == Err(NotAcceptable(reason))
  {
    forall x, t | ValidMoney(x) && a.startsAt <= t < a.endsAt ensures Accepts(a, x, t) <==> minimum <= x {
      AcceptanceMeans(a, 0, x, t);
    }
  }

  /**
   Evaluation raises exactly for an illegal amount or a row that no legal amount can follow, whatever the time; which of
   the two errors it raises says which, the amount being looked at first. Applying the bid raises the same.
   */
  lemma ErrorMeans(a: Auction, amount: int, now: Instant)
    requires ValidAuction(a)
    ensures EvaluateBid(a, amount, now) == Err(AmountOutOfRange) <==> !ValidMoney(amount)
    ensures EvaluateBid(a, amount, now) == Err(MinimumOverflow) <==>
            ValidMoney(amount) && forall x, t | ValidMoney(x) :: !Accepts(a, x, t)
    ensures EvaluateBid(a, amount, now).Err? ==>
              EvaluateBid(a, amount, now).error.AmountOutOfRange? || EvaluateBid(a, amount, now).error.MinimumOverflow?
    ensures EvaluateBid(a, amount, now).Err? ==>
              forall bid: BidId :: ApplyAcceptedBid(a, bid, amount, now) == Err(EvaluateBid(a, amount, now).error)
    ensures (forall x, t | ValidMoney(x) :: !Accepts(a, x, t)) <==> RequiredPrice(a) > MAX_MONEY_CENTS
  {
    var required := RequiredPrice(a);
    AcceptanceMeans(a, 0, required, a.startsAt);
    if required <= MAX_MONEY_CENTS {
      assert Accepts(a, required, a.startsAt);
    } else {
      forall x, t | ValidMoney(x) ensures !Accepts(a, x, t) {
        AcceptanceMeans(a, 0, x, t);
      }
    }
  }
}
