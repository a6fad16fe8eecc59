/**
 What every reachable state keeps, whatever mix of strategies runs: who holds what, how every in-flight call's locals
 relate to the committed tables, and how the tables relate to each other.
 */
module BaseInvariant {
  import opened Wrappers
  import opened Models
  import opened Rules
  import opened Transactions

  // ----- Rows

  /** The row carries this bid as its winner. */
  ghost predicate Carries(row: Auction, b: Bid) {
    row.id == b.auction && row.currentPrice == Some(b.amount) && row.winner == Some(b.id) && row.version == b.version
  }

  /** The row is as created, or as some committed bid left it. */
  ghost predicate Recorded(log: seq<Commit>, row: Auction) {
    row == Fresh(row) || exists k :: 0 <= k < |log| && Carries(row, log[k].bid)
  }

  /** A row some statement has read for this auction. */
  ghost predicate ReadOk(catalog: map<AuctionId, Auction>, log: seq<Commit>, a: AuctionId, row: Auction) {
    a in catalog && Fresh(row) == catalog[a] && ValidAuction(row) && Recorded(log, row)
  }

  /** The row is as created, or as a bid accepted by that time left it. */
  ghost predicate RecordedBy(log: seq<Commit>, row: Auction, now: Instant) {
    row == Fresh(row) || exists k :: 0 <= k < |log| && Carries(row, log[k].bid) && log[k].bid.acceptedAt <= now
  }

  /** A row read before the clock was read for its evaluation. */
  ghost predicate SeenOk(catalog: map<AuctionId, Auction>, log: seq<Commit>, a: AuctionId, row: Auction, now: Instant) {
    a in catalog && Fresh(row) == catalog[a] && ValidAuction(row) && RecordedBy(log, row, now)
  }

  /** The row is what the last commit on its auction left. */
  ghost predicate RowIsLatest(created: Auction, history: seq<Commit>, row: Auction) {
    && Fresh(row) == created && ValidAuction(row)
    && if history == [] then row == created else Carries(row, history[|history| - 1].bid)
  }

  ghost predicate RowsOk(s: State) {
    && s.auctions.Keys == s.catalog.Keys
    && forall a | a in s.auctions :: RowIsLatest(s.catalog[a], History(s.log, a), s.auctions[a])
  }

  ghost predicate CatalogOk(s: State) {
    && s.poolSize > 0
    && forall a | a in s.catalog ::
       s.catalog[a].id == a && ValidAuction(s.catalog[a]) && Fresh(s.catalog[a]) == s.catalog[a]
  }

  // ----- Calls

  ghost predicate BidOk(clock: Instant, drawn: map<BidId, CallId>, c: CallId, command: Command,
                        row: Auction, now: Instant, bid: Bid) {
    && bid == TentativeBid(command, bid.id, row.version + 1, bid.acceptedAt)
    && now <= bid.acceptedAt <= clock
    && bid.id in drawn && drawn[bid.id] == c
    && Accepts(row, command.amount, now)
  }

  /** The update validated after the insert and inside the window, or, without an own clock, when the row was read. */
  ghost predicate GuardOk(strategy: Strategy, clock: Instant, row: Auction, now: Instant, bid: Bid,
                          guardedAt: Instant) {
    if strategy.Optimistic? then bid.acceptedAt <= guardedAt <= clock && SqlWindow(row, guardedAt) else guardedAt == now
  }

  ghost predicate CallOk(catalog: map<AuctionId, Auction>, log: seq<Commit>, clock: Instant,
                         drawn: map<BidId, CallId>, c: CallId, call: Call) {
    var command := call.command;
    && ValidCommand(command)
    && ValidStrategy(call.strategy)
    && match call.pc
       case Timing(row) => ReadOk(catalog, log, command.auction, row)
       case Rechecking(row, now) =>
         call.strategy.Pessimistic? && SeenOk(catalog, log, command.auction, row, now) && now <= clock
       case Inserting(row, now) =>
         SeenOk(catalog, log, command.auction, row, now) && now <= clock && Accepts(row, command.amount, now)
       case InsertWaiting(row, now, bid) =>
         SeenOk(catalog, log, command.auction, row, now) && BidOk(clock, drawn, c, command, row, now, bid)
       case Updating(row, now, bid) =>
         && SeenOk(catalog, log, command.auction, row, now) && BidOk(clock, drawn, c, command, row, now, bid)
         && FindCommit(log, command.request).None?
       case UpdateWaiting(row, now, bid, guardedAt) =>
         && call.strategy.Optimistic?
         && SeenOk(catalog, log, command.auction, row, now) && BidOk(clock, drawn, c, command, row, now, bid)
         && GuardOk(call.strategy, clock, row, now, bid, guardedAt)
         && FindCommit(log, command.request).None?
       case Committing(row, now, bid, guardedAt, next) =>
         && SeenOk(catalog, log, command.auction, row, now) && BidOk(clock, drawn, c, command, row, now, bid)
         && GuardOk(call.strategy, clock, row, now, bid, guardedAt)
         && FindCommit(log, command.request).None?
       case Retiming(row) => ReadOk(catalog, log, command.auction, row)
       case _ => true
  }

  /** What holding the row lock guarantees about the newest row. */
  ghost predicate Protected(auctions: map<AuctionId, Auction>, call: Call) {
    var a := call.command.auction;
    match call.pc
    case Timing(row) => call.strategy.Pessimistic? ==> a in auctions && auctions[a] == row
    case Rechecking(row, _) => call.strategy.Pessimistic? ==> a in auctions && auctions[a] == row
    case Inserting(row, _) => call.strategy.Pessimistic? ==> a in auctions && auctions[a] == row
    case InsertWaiting(row, _, _) => call.strategy.Pessimistic? ==> a in auctions && auctions[a] == row
    case Updating(row, _, _) => call.strategy.Pessimistic? ==> a in auctions && auctions[a] == row
    case Committing(row, _, bid, guardedAt, next) =>
      && a in auctions && next == UpdatedRow(call, auctions[a], row, bid)
      && (call.strategy.Pessimistic? ==> auctions[a] == row)
      && (call.strategy.Optimistic? ==> auctions[a].version == row.version)
    case _ => true
  }

  // ----- Resources

  predicate MustLock(call: Call) {
    || call.pc.Committing?
    || (call.strategy.Pessimistic? &&
        (call.pc.Timing? || call.pc.Rechecking? || call.pc.Inserting? || call.pc.InsertWaiting? || call.pc.Updating?))
  }

  predicate MayLock(call: Call) {
    MustLock(call) || call.pc.Closing?
  }

  predicate MustReserve(call: Call) {
    call.pc.Updating? || call.pc.UpdateWaiting? || call.pc.Committing?
  }

  predicate MayReserve(call: Call) {
    MustReserve(call) || call.pc.Closing?
  }

  ghost predicate LocksOk(locks: map<AuctionId, CallId>, calls: map<CallId, Call>) {
    && (forall a | a in locks :: locks[a] in calls && calls[locks[a]].command.auction == a && MayLock(calls[locks[a]]))
    && (forall c | c in calls :: MustLock(calls[c]) ==>
          calls[c].command.auction in locks && locks[calls[c].command.auction] == c)
  }

  ghost predicate ReservedOk(reserved: map<RequestId, CallId>, calls: map<CallId, Call>) {
    && (forall r | r in reserved ::
          reserved[r] in calls && calls[reserved[r]].command.request == r && MayReserve(calls[reserved[r]]))
    && (forall c | c in calls :: MustReserve(calls[c]) ==>
          calls[c].command.request in reserved && reserved[calls[c].command.request] == c)
  }

  ghost predicate ConnectionsOk(connections: set<CallId>, calls: map<CallId, Call>) {
    && connections <= calls.Keys
    && forall c | c in calls :: c in connections <==> HoldsConnection(calls[c].pc)
  }

  // ----- The log

  ghost predicate EntryOk(s: State, k: nat)
    requires k < |s.log|
  {
    var e := s.log[k];
    && e.call in s.calls
    && SeenOk(s.catalog, s.log[..k], e.bid.auction, e.read, e.checkedAt)
    && BidOk(s.clock, s.drawn, e.call, s.calls[e.call].command, e.read, e.checkedAt, e.bid)
    && GuardOk(s.calls[e.call].strategy, s.clock, e.read, e.checkedAt, e.bid, e.validatedAt)
    && s.calls[e.call].pc == Done(Accepted(e.bid, s.calls[e.call].attempt, s.calls[e.call].attempt - 1))
    && ValidCommand(s.calls[e.call].command)
  }

  ghost predicate LogOk(s: State) {
    && (forall k | 0 <= k < |s.log| :: EntryOk(s, k))
    && (forall i, j | 0 <= i < j < |s.log| :: s.log[i].bid.request != s.log[j].bid.request)
  }

  ghost predicate CallsOk(s: State) {
    forall c | c in s.calls ::
      CallOk(s.catalog, s.log, s.clock, s.drawn, c, s.calls[c]) && Protected(s.auctions, s.calls[c])
  }

  ghost predicate Inv(s: State) {
    && CatalogOk(s) && RowsOk(s) && LogOk(s) && CallsOk(s)
    && LocksOk(s.locks, s.calls) && ReservedOk(s.reserved, s.calls) && ConnectionsOk(s.connections, s.calls)
  }

  // ----- Facts about the log functions

  lemma FrontOfAppend<T>(q: seq<T>, x: T)
    ensures (q + [x])[..|q|] == q && (q + [x])[|q|] == x
  {
  }

  lemma HistoryOfAppend(log: seq<Commit>, e: Commit, a: AuctionId)
    ensures History(log + [e], a) == if e.bid.auction == a then History(log, a) + [e] else History(log, a)
  {
    FrontOfAppend(log, e);
  }

  lemma FindOfAppend(log: seq<Commit>, e: Commit, r: RequestId)
    ensures FindCommit(log + [e], r) == if e.bid.request == r then Some(e) else FindCommit(log, r)
  {
    FrontOfAppend(log, e);
  }

  lemma {:induction false} FindCommitFinds(log: seq<Commit>, r: RequestId)
    ensures FindCommit(log, r).Some? ==>
            exists k :: 0 <= k < |log| && log[k] == FindCommit(log, r).value && log[k].bid.request == r
    ensures FindCommit(log, r).None? ==> forall k | 0 <= k < |log| :: log[k].bid.request != r
  {
    if log == [] {
    } else {
      FindCommitFinds(log[..|log| - 1], r);
    }
  }

  lemma {:induction false} HistoryComesFromLog(log: seq<Commit>, a: AuctionId, i: nat)
    requires i < |History(log, a)|
    ensures exists k :: 0 <= k < |log| && log[k] == History(log, a)[i] && log[k].bid.auction == a
  {
    var front := log[..|log| - 1];
    if i < |History(front, a)| {
      HistoryComesFromLog(front, a, i);
      var k :| 0 <= k < |front| && front[k] == History(front, a)[i] && front[k].bid.auction == a;
      assert log[k] == History(log, a)[i];
    } else {
      assert log[|log| - 1] == History(log, a)[i];
    }
  }

  lemma RecordedGrows(log: seq<Commit>, e: Commit, row: Auction)
    requires Recorded(log, row)
    ensures Recorded(log + [e], row)
  {
    if row != Fresh(row) {
      var k :| 0 <= k < |log| && Carries(row, log[k].bid);
      assert (log + [e])[k] == log[k];
    }
  }

  lemma RecordedByGrows(log: seq<Commit>, e: Commit, row: Auction, now: Instant)
    requires RecordedBy(log, row, now)
    ensures RecordedBy(log + [e], row, now)
  {
    if row != Fresh(row) {
      var k :| 0 <= k < |log| && Carries(row, log[k].bid) && log[k].bid.acceptedAt <= now;
      assert (log + [e])[k] == log[k];
    }
  }

  /** Whatever is recorded was accepted by now. */
  lemma RecordedByNow(s: State, row: Auction)
    requires LogOk(s) && Recorded(s.log, row)
    ensures RecordedBy(s.log, row, s.clock)
  {
    if row != Fresh(row) {
      var k :| 0 <= k < |s.log| && Carries(row, s.log[k].bid);
      assert EntryOk(s, k);
    }
  }

  /** Any committed row may be read. */
  lemma NewestRowReadable(s: State, a: AuctionId)
    requires RowsOk(s) && a in s.auctions
    ensures ReadOk(s.catalog, s.log, a, s.auctions[a])
  {
    var h := History(s.log, a);
    if h != [] {
      HistoryComesFromLog(s.log, a, |h| - 1);
    }
  }

  // ----- Steps that leave the tables alone

  ghost predicate DrawnGrows(before: map<BidId, CallId>, after: map<BidId, CallId>) {
    forall id | id in before :: id in after && after[id] == before[id]
  }

  lemma LocksKept(locks: map<AuctionId, CallId>, calls: map<CallId, Call>, c: CallId, call: Call)
    requires LocksOk(locks, calls)
    requires c !in calls ==> !MustLock(call)
    requires c in calls ==> (MayLock(calls[c]) ==> MayLock(call)) && (MustLock(call) ==> MustLock(calls[c]))
    requires c in calls ==> call.command == calls[c].command
    ensures LocksOk(locks, calls[c := call])
  {
  }

  lemma LocksGained(locks: map<AuctionId, CallId>, calls: map<CallId, Call>, c: CallId, call: Call)
    requires LocksOk(locks, calls) && c in calls && call.command == calls[c].command
    requires call.command.auction in locks ==> locks[call.command.auction] == c
    requires MayLock(call)
    ensures LocksOk(locks[call.command.auction := c], calls[c := call])
  {
  }

  lemma LocksReleased(locks: map<AuctionId, CallId>, calls: map<CallId, Call>, c: CallId, call: Call)
    requires LocksOk(locks, calls) && c in calls && call.command == calls[c].command && !MustLock(call)
    ensures var a := call.command.auction;
            LocksOk(if a in locks && locks[a] == c then locks - {a} else locks, calls[c := call])
  {
  }

  lemma ReservedKept(reserved: map<RequestId, CallId>, calls: map<CallId, Call>, c: CallId, call: Call)
    requires ReservedOk(reserved, calls)
    requires c !in calls ==> !MustReserve(call)
    requires c in calls ==> (MayReserve(calls[c]) ==> MayReserve(call)) && (MustReserve(call) ==> MustReserve(calls[c]))
    requires c in calls ==> call.command == calls[c].command
    ensures ReservedOk(reserved, calls[c := call])
  {
  }

  lemma ReservedGained(reserved: map<RequestId, CallId>, calls: map<CallId, Call>, c: CallId, call: Call)
    requires ReservedOk(reserved, calls) && c in calls && call.command == calls[c].command
    requires call.command.request in reserved ==> reserved[call.command.request] == c
    requires MayReserve(call)
    ensures ReservedOk(reserved[call.command.request := c], calls[c := call])
  {
  }

  lemma ReservedReleased(reserved: map<RequestId, CallId>, calls: map<CallId, Call>, c: CallId, call: Call)
    requires ReservedOk(reserved, calls) && c in calls && call.command == calls[c].command && !MustReserve(call)
    ensures var r := call.command.request;
            ReservedOk(if r in reserved && reserved[r] == c then reserved - {r} else reserved, calls[c := call])
  {
  }

  lemma ConnectionsKept(connections: set<CallId>, calls: map<CallId, Call>, c: CallId, call: Call)
    requires ConnectionsOk(connections, calls)
    requires HoldsConnection(call.pc) <==> c in calls && HoldsConnection(calls[c].pc)
    ensures ConnectionsOk(connections, calls[c := call])
  {
  }

  lemma ConnectionsChanged(connections: set<CallId>, calls: map<CallId, Call>, c: CallId, call: Call)
    requires ConnectionsOk(connections, calls)
    ensures ConnectionsOk(if HoldsConnection(call.pc) then connections + {c} else connections - {c}, calls[c := call])
  {
  }

  /** A step that leaves the tables alone and changes one call keeps everything said about the rest. */
  lemma FrameStep(s: State, c: CallId, call: Call, t: State)
    requires Inv(s)
    requires c in s.calls ==> !s.calls[c].pc.Done?
    requires t.catalog == s.catalog && t.poolSize == s.poolSize && t.auctions == s.auctions && t.log == s.log
    requires t.clock == s.clock
    requires DrawnGrows(s.drawn, t.drawn)
    requires t.calls == s.calls[c := call]
    requires CallOk(t.catalog, t.log, t.clock, t.drawn, c, call) && Protected(t.auctions, call)
    requires LocksOk(t.locks, t.calls) && ReservedOk(t.reserved, t.calls) && ConnectionsOk(t.connections, t.calls)
    ensures Inv(t)
  {
    forall k | 0 <= k < |t.log| ensures EntryOk(t, k) {
      assert EntryOk(s, k);
    }
  }

  lemma TickKeepsInv(s: State, now: Instant)
    requires Inv(s) && s.clock <= now
    ensures Inv(s.(clock := now))
  {
    var t := s.(clock := now);
    forall k | 0 <= k < |t.log| ensures EntryOk(t, k) {
      assert EntryOk(s, k);
    }
  }
}
