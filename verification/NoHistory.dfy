/**
 What no sequential history can explain: a misjudged duplicate, and two bids that share a version. With the histories
 that safe runs do have, this says exactly when a safe run is linearizable.
 */
module NoHistory {
  import opened Wrappers
  import opened Models
  import opened Rules
  import opened Transactions
  import opened BaseInvariant
  import opened Preservation
  import opened Progress
  import opened Anomaly
  import opened UnsharedRuns
  import opened Linearizability
  import opened MixedLinearizability

  // ----- Misjudged duplicates have no place in any history

  /** Serving never lowers the required price of an auction, and never forgets a bid. */
  lemma ServingMovesForward(t: Tables, e: Event, a: AuctionId)
    requires a in t.auctions && ValidAuction(t.auctions[a])
    requires Serve(t, e.command, e.now, e.id, e.acceptedAt).Some?
    ensures var u := Serve(t, e.command, e.now, e.id, e.acceptedAt).value.0;
            && a in u.auctions && ValidAuction(u.auctions[a])
            && RequiredPrice(t.auctions[a]) <= RequiredPrice(u.auctions[a])
            && t.auctions[a].version <= u.auctions[a].version
            && t.bids <= u.bids
  {
    if e.command.auction == a {
      AcceptanceMeans(t.auctions[a], e.id, e.command.amount, e.now);
    }
  }

  /** The tables after the first events of a served history. */
  function After(start: Tables, h: seq<Event>, n: nat): Option<Tables>
    requires n <= |h|
  {
    ServeAll(start, h[..n])
  }

  lemma ServedStep(start: Tables, h: seq<Event>, n: nat)
    requires n < |h| && After(start, h, n + 1).Some?
    ensures After(start, h, n).Some?
    ensures var e := h[n];
            Serve(After(start, h, n).value, e.command, e.now, e.id, e.acceptedAt)
            == Some((After(start, h, n + 1).value, e.outcome))
  {
    assert h[..n + 1][..n] == h[..n];
  }

  lemma {:induction false} ServedPrefix(start: Tables, h: seq<Event>, n: nat)
    requires n <= |h| && ServeAll(start, h).Some?
    ensures After(start, h, n).Some?
    decreases |h| - n
  {
    if n == |h| {
      assert h[..n] == h;
    } else {
      ServedPrefix(start, h, n + 1);
      ServedStep(start, h, n);
    }
  }

  /** From t to u the row stays valid, its required price and version do not fall, and no bid is forgotten. */
  ghost predicate RowGrows(t: Tables, u: Tables, a: AuctionId) {
    && a in t.auctions && a in u.auctions && ValidAuction(u.auctions[a])
    && RequiredPrice(t.auctions[a]) <= RequiredPrice(u.auctions[a])
    && t.auctions[a].version <= u.auctions[a].version && t.bids <= u.bids
  }

  lemma {:induction false} PricesRiseInHistory(start: Tables, h: seq<Event>, m: nat, n: nat, a: AuctionId)
    requires m <= n <= |h| && ServeAll(start, h).Some? && a in start.auctions && ValidAuction(start.auctions[a])
    ensures After(start, h, m).Some? && After(start, h, n).Some?
    ensures RowGrows(After(start, h, m).value, After(start, h, n).value, a)
    decreases n
  {
    ServedPrefix(start, h, m);
    ServedPrefix(start, h, n);
    if n == 0 {
      assert h[..0] == [];
    } else {
      PricesRiseInHistory(start, h, if m == n then m - 1 else m, n - 1, a);
      ServedStep(start, h, n - 1);
      ServingMovesForward(After(start, h, n - 1).value, h[n - 1], a);
    }
  }

  lemma {:induction false} FindBidFinds(bids: seq<Bid>, r: RequestId)
    requires exists b :: b in bids && b.request == r
    ensures FindBid(bids, r).Some?
  {
    if bids[|bids| - 1].request == r {
    } else {
      var b :| b in bids && b.request == r;
      assert b in bids[..|bids| - 1];
      FindBidFinds(bids[..|bids| - 1], r);
    }
  }

  lemma ServedAcceptance(t: Tables, e: Event, u: Tables, bid: Bid)
    requires forall a | a in t.auctions :: ValidAuction(t.auctions[a])
    requires Serve(t, e.command, e.now, e.id, e.acceptedAt) == Some((u, Accepted(bid, 1, 0)))
    ensures bid.auction == e.command.auction && bid.auction in t.auctions && bid in u.bids
    ensures RequiredPrice(t.auctions[bid.auction]) <= bid.amount
    ensures bid.version == t.auctions[bid.auction].version + 1
    ensures bid.auction in u.auctions && u.auctions[bid.auction].version == bid.version
  {
    AcceptanceMeans(t.auctions[e.command.auction], e.id, e.command.amount, e.now);
  }

  lemma ServedRefusal(t: Tables, e: Event, u: Tables, reason: RejectionReason, minimum: Option<int>)
    requires RuleReason(reason)
    requires Serve(t, e.command, e.now, e.id, e.acceptedAt) == Some((u, Rejected(reason, minimum, 1, 0)))
    ensures FindBid(t.bids, e.command.request).None?
    ensures e.command.auction in t.auctions && minimum == Some(RequiredPrice(t.auctions[e.command.auction]))
  {
  }

  /** Calls that share a request id name the same auction. */
  ghost predicate SharedRequestsNameOneAuction(s: State) {
    forall c, d | c in s.calls && d in s.calls && s.calls[c].command.request == s.calls[d].command.request ::
      s.calls[c].command.auction == s.calls[d].command.auction
  }

  /** A committed request id belongs to an accepted call whose bid has been outbid. */
  lemma CommittedRequestIsOutbid(run: Run, j: nat, r: RequestId) returns (d: CallId)
    requires IsRun(run) && j < |run.states| && Unshared(run.states[j]) && ExistingBid(run.states[j].log, r).Some?
    ensures IsCompleted(run.states[j], d) && run.states[j].calls[d].pc.outcome.Accepted?
    ensures var s, bid := run.states[j], run.states[j].calls[d].pc.outcome.bid;
            && bid.request == r && s.calls[d].command.request == r && s.calls[d].command.auction == bid.auction
            && bid.auction in s.auctions && bid.amount < RequiredPrice(s.auctions[bid.auction])
  {
    var s := run.states[j];
    RunKeepsInv(run, j);
    FindCommitFinds(s.log, r);
    var m :| 0 <= m < |s.log| && s.log[m].bid.request == r;
    assert EntryOk(s, m);
    d := s.log[m].call;
    CommittedBidsAreOutbid(run, j, m);
  }

  /** What a misjudged call has missed: a bid of its own request id, below the minimum it was quoted. */
  lemma MisjudgedWasOutbid(run: Run, c: CallId) returns (d: CallId)
    requires IsRun(run) && Unshared(Last(run)) && SharedRequestsNameOneAuction(Last(run))
    requires IsCompleted(Last(run), c) && Misjudged(run, c)
    ensures IsCompleted(Last(run), d) && Last(run).calls[d].pc.outcome.Accepted?
    ensures var bid, command := Last(run).calls[d].pc.outcome.bid, Last(run).calls[c].command;
            && bid.request == command.request && bid.auction == command.auction
            && var minimum := Last(run).calls[c].pc.outcome.minimum; minimum.Some? && bid.amount < minimum.value
  {
    var call := Last(run).calls[c];
    var j, k, row, now :| JudgedLate(run, c, call, j, k, row, now);
    EarlierIsUnshared(run, j, |run.states| - 1);
    d := CommittedRequestIsOutbid(run, j, call.command.request);
    RunGrows(run, j, |run.states| - 1);
  }

  lemma EventOfCall(s: State, h: seq<Event>, c: CallId) returns (k: nat)
    requires IsCompleted(s, c) && AppearsPlainly(s, h, c)
    ensures k < |h| && h[k].call == c && h[k].command == s.calls[c].command
    ensures h[k].outcome == Plain(s.calls[c].pc.outcome)
  {
    EventsByComeFrom(h, c);
    assert EventsBy(h, c)[0] in EventsBy(h, c);
    k :| 0 <= k < |h| && h[k] == EventsBy(h, c)[0];
  }

  lemma HistoryKeepsAuctions(start: Tables, h: seq<Event>, n: nat, a: AuctionId)
    requires n <= |h| && After(start, h, n).Some? && a in After(start, h, n).value.auctions
    ensures a in start.auctions
  {
    KeysStayServed(start, h[..n]);
  }

  lemma {:induction false} KeysStayServed(start: Tables, h: seq<Event>)
    requires ServeAll(start, h).Some?
    ensures ServeAll(start, h).value.auctions.Keys == start.auctions.Keys
  {
    if h == [] {
    } else {
      KeysStayServed(start, h[..|h| - 1]);
    }
  }

  lemma HistoryKeepsValid(start: Tables, h: seq<Event>, n: nat)
    requires n <= |h| && ServeAll(start, h).Some? && forall a | a in start.auctions :: ValidAuction(start.auctions[a])
    ensures After(start, h, n).Some?
    ensures forall a | a in After(start, h, n).value.auctions :: ValidAuction(After(start, h, n).value.auctions[a])
  {
    ServedPrefix(start, h, n);
    forall a | a in After(start, h, n).value.auctions ensures ValidAuction(After(start, h, n).value.auctions[a]) {
      HistoryKeepsAuctions(start, h, n, a);
      PricesRiseInHistory(start, h, 0, n, a);
    }
  }

  /** An acceptance of a served history follows the row before it and leaves its bid and its version. */
  lemma AcceptanceInHistory(start: Tables, h: seq<Event>, p: nat, bid: Bid)
    requires ServeAll(start, h).Some? && forall a | a in start.auctions :: ValidAuction(start.auctions[a])
    requires p < |h| && h[p].outcome == Accepted(bid, 1, 0)
    ensures After(start, h, p).Some? && After(start, h, p + 1).Some? && bid.auction in start.auctions
    ensures var t, u, a := After(start, h, p).value, After(start, h, p + 1).value, bid.auction;
            && a in t.auctions && RequiredPrice(t.auctions[a]) <= bid.amount && bid.version == t.auctions[a].version + 1
            && a in u.auctions && u.auctions[a].version == bid.version && bid in u.bids
  {
    ServedPrefix(start, h, p + 1);
    ServedStep(start, h, p);
    HistoryKeepsValid(start, h, p);
    ServedAcceptance(After(start, h, p).value, h[p], After(start, h, p + 1).value, bid);
    HistoryKeepsAuctions(start, h, p, bid.auction);
  }

  /** A refusal of a served history quotes the row before it, and its request id is not committed there. */
  lemma RefusalInHistory(start: Tables, h: seq<Event>, q: nat, reason: RejectionReason, minimum: int)
    requires ServeAll(start, h).Some? && q < |h|
    requires RuleReason(reason) && h[q].outcome == Rejected(reason, Some(minimum), 1, 0)
    ensures After(start, h, q).Some?
    ensures var t, command := After(start, h, q).value, h[q].command;
            && FindBid(t.bids, command.request).None?
            && command.auction in t.auctions && minimum == RequiredPrice(t.auctions[command.auction])
  {
    ServedPrefix(start, h, q + 1);
    ServedStep(start, h, q);
    ServedRefusal(After(start, h, q).value, h[q], After(start, h, q + 1).value, reason, Some(minimum));
  }

  /** In a served history a refusal cannot quote a minimum above an accepted bid of its own request and auction. */
  lemma RefusalsQuoteAtMost(start: Tables, h: seq<Event>, p: nat, q: nat, bid: Bid, reason: RejectionReason,
      minimum: int)
    requires ServeAll(start, h).Some? && forall a | a in start.auctions :: ValidAuction(start.auctions[a])
    requires p < |h| && q < |h| && h[p].outcome == Accepted(bid, 1, 0)
    requires RuleReason(reason) && h[q].outcome == Rejected(reason, Some(minimum), 1, 0)
    requires h[q].command.request == bid.request && h[q].command.auction == bid.auction
    ensures minimum <= bid.amount
  {
    AcceptanceInHistory(start, h, p, bid);
    RefusalInHistory(start, h, q, reason, minimum);
    if p < q {
      PricesRiseInHistory(start, h, p + 1, q, bid.auction);
      FindBidFinds(After(start, h, q).value.bids, bid.request);
      assert false;
    } else {
      PricesRiseInHistory(start, h, q, p, bid.auction);
    }
  }

  /**
   No sequence of events, in any order and with any times, in which the accepted calls and a misjudged one appear with
   their outcomes is served.
   */
  lemma MisjudgedHasNoHistory(run: Run, c: CallId, h: seq<Event>)
    requires IsRun(run) && Unshared(Last(run)) && SharedRequestsNameOneAuction(Last(run))
    requires IsCompleted(Last(run), c) && Misjudged(run, c) && AppearsPlainly(Last(run), h, c)
    requires forall d | IsCompleted(Last(run), d) && Last(run).calls[d].pc.outcome.Accepted? ::
             AppearsPlainly(Last(run), h, d)
    ensures ServeAll(TablesOf(run.states[0]), h).None?
  {
    if ServeAll(TablesOf(run.states[0]), h).Some? {
      var d := MisjudgedWasOutbid(run, c);
      var p := EventOfCall(Last(run), h, d);
      var q := EventOfCall(Last(run), h, c);
      var o := Last(run).calls[c].pc.outcome;
      RefusalsQuoteAtMost(TablesOf(run.states[0]), h, p, q, Last(run).calls[d].pc.outcome.bid, o.reason,
          o.minimum.value);
      assert false;
    }
  }

  // ----- Lost updates have no place in any history

  /** In a served history later acceptances on an auction carry later versions. */
  lemma AcceptancesCountUp(start: Tables, h: seq<Event>, p: nat, q: nat, first: Bid, second: Bid)
    requires ServeAll(start, h).Some? && forall a | a in start.auctions :: ValidAuction(start.auctions[a])
    requires p < q < |h| && h[p].outcome == Accepted(first, 1, 0) && h[q].outcome == Accepted(second, 1, 0)
    requires first.auction == second.auction
    ensures first.version < second.version
  {
    AcceptanceInHistory(start, h, p, first);
    AcceptanceInHistory(start, h, q, second);
    PricesRiseInHistory(start, h, p + 1, q, first.auction);
  }

  /** Every commit of an auction's history is the accepted outcome of its call. */
  lemma HistoryIsAccepted(run: Run, a: AuctionId, k: nat)
    requires IsRun(run) && k < |History(Last(run).log, a)|
    ensures var e := History(Last(run).log, a)[k];
            && e.bid.auction == a && IsCompleted(Last(run), e.call)
            && Plain(Last(run).calls[e.call].pc.outcome) == Accepted(e.bid, 1, 0)
  {
    var m := HistoryPosition(Last(run).log, a, k);
    RunKeepsInv(run, |run.states| - 1);
    assert EntryOk(Last(run), m);
  }

  /** Two commits of an auction are two events of any sequence in which the accepted calls appear. */
  lemma CommitsAreTwoEvents(run: Run, a: AuctionId, h: seq<Event>, i: nat, j: nat) returns (p: nat, q: nat)
    requires IsRun(run) && i < j < |History(Last(run).log, a)|
    requires forall d | IsCompleted(Last(run), d) && Last(run).calls[d].pc.outcome.Accepted? ::
               AppearsPlainly(Last(run), h, d)
    ensures p < |h| && q < |h| && p != q
    ensures var log := History(Last(run).log, a);
            && h[p].outcome == Accepted(log[i].bid, 1, 0) && h[q].outcome == Accepted(log[j].bid, 1, 0)
            && log[i].bid.auction == log[j].bid.auction == a
  {
    var log := History(Last(run).log, a);
    HistoryIsAccepted(run, a, i);
    HistoryIsAccepted(run, a, j);
    p := EventOfCall(Last(run), h, log[i].call);
    q := EventOfCall(Last(run), h, log[j].call);
    RunKeepsInv(run, |run.states| - 1);
    HistoryIdsDistinct(Last(run), a);
    assert Bids(log)[i].id != Bids(log)[j].id;
  }

  /**
   In any mix of strategies, once two commits on an auction share a version no sequence of events in which the accepted
   calls appear with their outcomes is served, in any order and with any times.
   */
  lemma SharedVersionHasNoHistory(run: Run, a: AuctionId, h: seq<Event>)
    requires IsRun(run) && SharedVersion(History(Last(run).log, a))
    requires forall d | IsCompleted(Last(run), d) && Last(run).calls[d].pc.outcome.Accepted? ::
               AppearsPlainly(Last(run), h, d)
    ensures ServeAll(TablesOf(run.states[0]), h).None?
  {
    var start, log := TablesOf(run.states[0]), History(Last(run).log, a);
    if ServeAll(start, h).Some? {
      var i, j :| 0 <= i < j < |log| && log[i].bid.version == log[j].bid.version;
      var p, q := CommitsAreTwoEvents(run, a, h, i, j);
      if p < q {
        AcceptancesCountUp(start, h, p, q, log[i].bid, log[j].bid);
      } else {
        AcceptancesCountUp(start, h, q, p, log[j].bid, log[i].bid);
      }
      assert false;
    }
  }

  // ----- Exactly the linearizable runs

  /** The history accounts for every completed call but those that gave up. */
  ghost predicate AccountsForAll(run: Run, h: seq<Event>)
    requires run.states != []
  {
    && IsHistory(run, h)
    && forall c | IsCompleted(Last(run), c) && !GaveUp(Last(run).calls[c].pc.outcome) :: AppearsPlainly(Last(run), h, c)
  }

  /** A run without shared versions and misjudged calls has such a history. */
  lemma WellJudgedRunIsLinearizable(run: Run) returns (h: seq<Event>)
    requires IsRun(run) && Unshared(Last(run)) && forall c | IsCompleted(Last(run), c) :: !Misjudged(run, c)
    ensures AccountsForAll(run, h)
  {
    h := UnsharedRunsAreLinearizable(run);
    forall c | IsCompleted(Last(run), c) && !GaveUp(Last(run).calls[c].pc.outcome)
      ensures AppearsPlainly(Last(run), h, c)
    {
      assert MustAppear(run, c);
    }
  }

  /**
   Exactly when a run of any mix of strategies is linearizable, up to counts and calls that gave up, provided that calls
   with one request id name one auction: when no two commits on an auction share a version, and no call was rejected by
   the rules on a row it read after its request id was committed.
   */
  lemma ExactlyLinearizable(run: Run)
    requires IsRun(run) && SharedRequestsNameOneAuction(Last(run))
    ensures (exists h :: AccountsForAll(run, h)) <==>
            Unshared(Last(run)) && forall c | IsCompleted(Last(run), c) :: !Misjudged(run, c)
  {
    if !Unshared(Last(run)) {
      var a :| a in Last(run).catalog && SharedVersion(History(Last(run).log, a));
      forall h | AccountsForAll(run, h) ensures false {
        SharedVersionHasNoHistory(run, a, h);
      }
    } else if forall c | IsCompleted(Last(run), c) :: !Misjudged(run, c) {
      var h := WellJudgedRunIsLinearizable(run);
    } else {
      var c :| IsCompleted(Last(run), c) && Misjudged(run, c);
      forall h | AccountsForAll(run, h) ensures false {
        MisjudgedHasNoHistory(run, c, h);
      }
    }
  }
}
