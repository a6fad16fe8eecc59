/**
 The three bid transactions as interleaved database statements under READ COMMITTED.

 Every call of place_bid is a program counter with its local values. One statement of one call is one step, and
 steps of different calls interleave freely. Each statement sees the latest committed tables; a transaction's own
 writes stay in its locals until its COMMIT step moves them into the tables. A statement that must wait for a pooled
 connection, a row lock or an entry of the unique index on request ids has no step until what it waits for is free,
 and may be aborted meanwhile. The set of auctions is fixed for a run.
 */
module Transactions {
  import opened Wrappers
  import opened Models
  import opened Rules

  type CallId = int

  datatype Strategy = Unsafe | Pessimistic | Optimistic(maxAttempts: int)

  /** Database conditions that end a statement from outside. */
  datatype Fault = LockNotAvailable | QueryCanceled | PoolTimeout | DeadlockDetected

  datatype Error = StrategyBusy | DatabaseError(fault: Fault) | MoneyOverflow | UnresolvedDuplicate

  /** What the optimistic miss exception carries, with the time the missed update validated at. */
  datatype Miss = Miss(version: int, guardedAt: Instant)

  /** Why a block holding a connection is being left. */
  datatype Exit =
    | Return(outcome: Outcome)
    | Missed(miss: Miss)
    | Duplicate
    | Retry
    | Fail(error: Error)

  /** What the second connection block of a call is for. */
  datatype Purpose = Classify | Resolve

  /** The statement a call issues next, with the locals that are live there. */
  datatype Pc =
    | Connecting
    | Lookup
    | Reading
    | Timing(row: Auction)
    | Rechecking(row: Auction, now: Instant)
    | Inserting(row: Auction, now: Instant)
    | InsertWaiting(row: Auction, now: Instant, bid: Bid)
    | Updating(row: Auction, now: Instant, bid: Bid)
    | UpdateWaiting(row: Auction, now: Instant, bid: Bid, guardedAt: Instant)
    | Committing(row: Auction, now: Instant, bid: Bid, guardedAt: Instant, next: Auction)
    | Closing(exit: Exit)
    | Reconnecting(purpose: Purpose)
    | Relooking(purpose: Purpose)
    | Rereading
    | Retiming(row: Auction)
    | Done(outcome: Outcome)
    | Raised(error: Error)

  datatype Call = Call(strategy: Strategy, command: Command, attempt: int, misses: seq<Miss>, pc: Pc)

  /** A committed bid with the call that wrote it, the row it was checked against, and when. */
  datatype Commit = Commit(bid: Bid, call: CallId, read: Auction, checkedAt: Instant, validatedAt: Instant)

  /**
   auctions and log are the committed tables, the log in commit order; catalog holds the auctions as created.
   locks, reserved and connections say who owns a row lock, an uncommitted entry of the unique index, a connection.
   drawn records which call generated which bid identifier.
   */
  datatype State = State(
    catalog: map<AuctionId, Auction>,
    poolSize: nat,
    auctions: map<AuctionId, Auction>,
    log: seq<Commit>,
    clock: Instant,
    locks: map<AuctionId, CallId>,
    reserved: map<RequestId, CallId>,
    connections: set<CallId>,
    drawn: map<BidId, CallId>,
    calls: map<CallId, Call>)

  // ----- The bids table

  function FindCommit(log: seq<Commit>, request: RequestId): Option<Commit> {
    if log == [] then None
    else if log[|log| - 1].bid.request == request then Some(log[|log| - 1])
    else FindCommit(log[..|log| - 1], request)
  }

  /** SELECT ... FROM bids WHERE request_id = request. */
  function ExistingBid(log: seq<Commit>, request: RequestId): Option<Bid> {
    match FindCommit(log, request)
    case None => None
    case Some(e) => Some(e.bid)
  }

  /** The commits on one auction, in commit order. */
  function History(log: seq<Commit>, a: AuctionId): seq<Commit> {
    if log == [] then []
    else
      var front := History(log[..|log| - 1], a);
      if log[|log| - 1].bid.auction == a then front + [log[|log| - 1]] else front
  }

  function Bids(log: seq<Commit>): (bids: seq<Bid>)
    ensures |bids| == |log| && forall k | 0 <= k < |log| :: bids[k] == log[k].bid
  {
    seq(|log|, k requires 0 <= k < |log| => log[k].bid)
  }

  // ----- Outcomes

  function ReplayOrReject(existing: Bid, command: Command, attempts: int, conflicts: int): Outcome {
    if existing.auction == command.auction && existing.bidder == Strip(command.bidder)
        && existing.amount == command.amount
    then Replayed(existing, attempts, conflicts)
    else Rejected(RequestIdReused, None, attempts, conflicts)
  }

  function TentativeBid(command: Command, id: BidId, version: int, acceptedAt: Instant): Bid {
    Bid(id, command.request, command.auction, Strip(command.bidder), command.amount, version, acceptedAt)
  }

  /** Where the local evaluation after a clock read leads inside the bid transaction. */
  function Decide(call: Call, row: Auction, now: Instant): Pc {
    match EvaluateBid(row, call.command.amount, now)
    case Err(_) => Closing(Fail(MoneyOverflow))
    case Ok(evaluation) =>
      if evaluation.accepted then Inserting(row, now)
      else Closing(Return(Rejected(evaluation.reason.value, Some(evaluation.minimum), call.attempt, 0)))
  }

  /** Where the evaluation after a missed update leads. */
  function DecideAfterMiss(call: Call, row: Auction, now: Instant): Pc {
    match EvaluateBid(row, call.command.amount, now)
    case Err(_) => Closing(Fail(MoneyOverflow))
    case Ok(evaluation) =>
      if !evaluation.accepted then
        Closing(Return(Rejected(evaluation.reason.value, Some(evaluation.minimum), call.attempt, call.attempt)))
      else if call.strategy.Optimistic? && call.attempt < call.strategy.maxAttempts then Closing(Retry)
      else Closing(Return(Rejected(ConflictRetryExhausted, None, call.attempt, call.attempt)))
  }

  /**
   The error a caller sees: only lock waits of the pessimistic block and cancellations of either safe block are
   mapped.
   */
  function ErrorFor(call: Call, fault: Fault): Error {
    var inBidBlock := call.pc.Connecting? || MainBlock(call.pc);
    if inBidBlock && (   (call.strategy.Pessimistic? && (fault.LockNotAvailable? || fault.QueryCanceled?))
                      || (call.strategy.Optimistic? && fault.QueryCanceled?))
    then StrategyBusy
    else DatabaseError(fault)
  }

  // ----- Program counters

  predicate MainBlock(pc: Pc) {
    || pc.Lookup? || pc.Reading? || pc.Timing? || pc.Rechecking? || pc.Inserting? || pc.InsertWaiting?
    || pc.Updating? || pc.UpdateWaiting? || pc.Committing?
  }

  predicate SecondBlock(pc: Pc) {
    pc.Relooking? || pc.Rereading? || pc.Retiming?
  }

  predicate Finished(pc: Pc) {
    pc.Done? || pc.Raised?
  }

  predicate HoldsConnection(pc: Pc) {
    MainBlock(pc) || SecondBlock(pc) || pc.Closing?
  }

  /** The row the call has read and still relies on. */
  function HeldRow(pc: Pc): Option<Auction> {
    match pc
    case Timing(row) => Some(row)
    case Rechecking(row, _) => Some(row)
    case Inserting(row, _) => Some(row)
    case InsertWaiting(row, _, _) => Some(row)
    case Updating(row, _, _) => Some(row)
    case UpdateWaiting(row, _, _, _) => Some(row)
    case Committing(row, _, _, _, _) => Some(row)
    case Retiming(row) => Some(row)
    case _ => None
  }

  /** The clock value the call has read for its evaluation. */
  function HeldTime(pc: Pc): Option<Instant> {
    match pc
    case Rechecking(_, now) => Some(now)
    case Inserting(_, now) => Some(now)
    case InsertWaiting(_, now, _) => Some(now)
    case Updating(_, now, _) => Some(now)
    case UpdateWaiting(_, now, _, _) => Some(now)
    case Committing(_, now, _, _, _) => Some(now)
    case _ => None
  }

  // ----- Statements

  function Goto(s: State, c: CallId, pc: Pc): State
    requires c in s.calls
  {
    s.(calls := s.calls[c := s.calls[c].(pc := pc)])
  }

  /** Give back the row lock, the index entry and the connection of a call. */
  function Released(s: State, c: CallId): State
    requires c in s.calls
  {
    var command := s.calls[c].command;
    var a, r := command.auction, command.request;
    s.(locks := if a in s.locks && s.locks[a] == c then s.locks - {a} else s.locks,
       reserved := if r in s.reserved && s.reserved[r] == c then s.reserved - {r} else s.reserved,
       connections := s.connections - {c})
  }

  predicate LockFree(s: State, c: CallId, a: AuctionId) {
    a in s.locks ==> s.locks[a] == c
  }

  predicate EntryFree(s: State, c: CallId, r: RequestId) {
    r in s.reserved ==> s.reserved[r] == c
  }

  /** The call has a next statement and nothing it would wait for is held by another call. */
  predicate Ready(s: State, c: CallId) {
    && c in s.calls
    && var call := s.calls[c];
       match call.pc
       case Connecting => |s.connections| < s.poolSize
       case Reconnecting(_) => |s.connections| < s.poolSize
       case Reading =>
         call.strategy.Pessimistic? && call.command.auction in s.auctions ==> LockFree(s, c, call.command.auction)
       case InsertWaiting(_, _, _) => EntryFree(s, c, call.command.request)
       case Updating(_, _, _) =>
         call.command.auction in s.auctions && (!call.strategy.Optimistic? ==> LockFree(s, c, call.command.auction))
       case UpdateWaiting(_, _, _, _) => call.command.auction in s.auctions && LockFree(s, c, call.command.auction)
       case Committing(_, _, _, _, _) => call.command.auction in s.auctions
       case Done(_) => false
       case Raised(_) => false
       case _ => true
  }

  /** The statements that may take the lock of their auction's row. */
  predicate Locks(call: Call) {
    (call.pc.Reading? && call.strategy.Pessimistic?) || call.pc.Updating? || call.pc.UpdateWaiting?
  }

  /** The statements that give back what the call owns. */
  predicate Ends(pc: Pc) {
    pc.Closing? || pc.Committing?
  }

  /**
   A statement of a call changes that call only, the tables only if it commits, and no row lock but its own auction's,
   which it takes only when it reads for update or updates and gives back only when it commits or leaves its block.
   */
  ghost predicate OwnStep(s: State, c: CallId, t: State) {
    && c in s.calls && c in t.calls && t.calls == s.calls[c := t.calls[c]]
    && t.calls[c].strategy == s.calls[c].strategy && t.calls[c].command == s.calls[c].command
    && t.catalog == s.catalog && t.poolSize == s.poolSize && t.clock == s.clock
    && (!s.calls[c].pc.Committing? ==> t.auctions == s.auctions && t.log == s.log)
    && s.log <= t.log
    && s.calls[c].attempt <= t.calls[c].attempt && s.calls[c].misses <= t.calls[c].misses
    && (!s.calls[c].pc.Closing? ==> t.calls[c] == s.calls[c].(pc := t.calls[c].pc))
    && (|| t.locks == s.locks
        || (Locks(s.calls[c]) && t.locks == s.locks[s.calls[c].command.auction := c])
        || (Ends(s.calls[c].pc) && t.locks == s.locks - {s.calls[c].command.auction}))
  }

  /**
   Where locals come from: a row or a time is carried along or read now, a miss is an update whose guard fails on the
   newest row, and misses are recorded only when the block of the missed update is closed.
   */
  ghost predicate LocalFlow(s: State, c: CallId, t: State) {
    && c in s.calls && c in t.calls
    && var before, after := s.calls[c], t.calls[c];
       var a := before.command.auction;
       && (HeldRow(after.pc).Some? ==>
             || HeldRow(after.pc) == HeldRow(before.pc)
             || ((if after.pc.Timing? then before.pc.Reading? else before.pc.Rereading? && after.pc.Retiming?)
                 && a in s.auctions && HeldRow(after.pc) == Some(s.auctions[a])))
       && (HeldTime(after.pc).Some? ==>
             HeldTime(after.pc) == HeldTime(before.pc) || (before.pc.Timing? && HeldTime(after.pc) == Some(s.clock)))
       && (after.pc.Closing? && after.pc.exit.Missed? ==>
             var miss := after.pc.exit.miss;
             && (before.pc.Updating? || before.pc.UpdateWaiting?)
             && a in s.auctions && miss.version == before.pc.row.version
             && miss.guardedAt == (if before.pc.Updating? then s.clock else before.pc.guardedAt)
             && !SqlGuard(s.auctions[a], miss.version, before.command.amount, miss.guardedAt))
       && (after.misses == before.misses
           || (before.pc.Closing? && before.pc.exit.Missed? && after.misses == before.misses + [before.pc.exit.miss]))
  }

  function Connect(s: State, c: CallId): (t: State)
    requires c in s.calls && (s.calls[c].pc.Connecting? || s.calls[c].pc.Reconnecting?)
    ensures OwnStep(s, c, t) && LocalFlow(s, c, t)
  {
    var pc := s.calls[c].pc;
    Goto(s, c, if pc.Connecting? then Lookup else Relooking(pc.purpose)).(connections := s.connections + {c})
  }

  /** SELECT ... FROM bids WHERE request_id = ...; first statement of the bid transaction. */
  function LookUpRequest(s: State, c: CallId): (t: State)
    requires c in s.calls && s.calls[c].pc.Lookup?
    ensures OwnStep(s, c, t) && LocalFlow(s, c, t)
  {
    var call := s.calls[c];
    Goto(s, c,
         match ExistingBid(s.log, call.command.request)
         case Some(b) => Closing(Return(ReplayOrReject(b, call.command, call.attempt, call.attempt - 1)))
         case None => Reading)
  }

  /** SELECT ... FROM auctions WHERE id = ..., with FOR UPDATE in the pessimistic strategy. */
  function ReadAuction(s: State, c: CallId): (t: State)
    requires c in s.calls && s.calls[c].pc.Reading?
    ensures OwnStep(s, c, t) && LocalFlow(s, c, t)
  {
    var call := s.calls[c];
    var a := call.command.auction;
    if a !in s.auctions then Goto(s, c, Closing(Return(Rejected(AuctionNotFound, None, call.attempt, 0))))
    else if call.strategy.Pessimistic? then Goto(s, c, Timing(s.auctions[a])).(locks := s.locks[a := c])
    else Goto(s, c, Timing(s.auctions[a]))
  }

  /** SELECT clock_timestamp(), followed in two strategies by the evaluation. */
  function ReadClock(s: State, c: CallId): (t: State)
    requires c in s.calls && s.calls[c].pc.Timing?
    ensures OwnStep(s, c, t) && LocalFlow(s, c, t)
  {
    var call := s.calls[c];
    Goto(s, c, if call.strategy.Pessimistic? then Rechecking(call.pc.row, s.clock)
        else Decide(call, call.pc.row, s.clock))
  }

  /** The pessimistic second look at the request id, under the row lock, followed by the evaluation. */
  function Recheck(s: State, c: CallId): (t: State)
    requires c in s.calls && s.calls[c].pc.Rechecking?
    ensures OwnStep(s, c, t) && LocalFlow(s, c, t)
  {
    var call := s.calls[c];
    Goto(s, c,
         match ExistingBid(s.log, call.command.request)
         case Some(b) => Closing(Return(ReplayOrReject(b, call.command, call.attempt, call.attempt - 1)))
         case None => Decide(call, call.pc.row, call.pc.now))
  }

  /** INSERT INTO bids is issued: the identifier is drawn and accepted_at takes its default from the clock. */
  function IssueInsert(s: State, c: CallId, id: BidId): (t: State)
    requires c in s.calls && s.calls[c].pc.Inserting?
    ensures OwnStep(s, c, t) && LocalFlow(s, c, t)
  {
    var call := s.calls[c];
    var bid := TentativeBid(call.command, id, call.pc.row.version + 1, s.clock);
    Goto(s, c, InsertWaiting(call.pc.row, call.pc.now, bid)).(drawn := s.drawn[id := c])
  }

  /** The INSERT gets its entry in the unique index, or fails because a committed bid has the request id. */
  function FinishInsert(s: State, c: CallId): (t: State)
    requires c in s.calls && s.calls[c].pc.InsertWaiting?
    ensures OwnStep(s, c, t) && LocalFlow(s, c, t)
  {
    var call := s.calls[c];
    var r := call.command.request;
    if ExistingBid(s.log, r).Some? then Goto(s, c, Closing(Duplicate))
    else Goto(s, c, Updating(call.pc.row, call.pc.now, call.pc.bid)).(reserved := s.reserved[r := c])
  }

  /**
   The row an UPDATE leaves: the version counts up from the newest row, or in the unsafe strategy from the row read.
   */
  function UpdatedRow(call: Call, current: Auction, read: Auction, bid: Bid): Auction {
    if call.strategy.Unsafe? then Successor(current, bid.id, bid.amount).(version := read.version + 1)
    else Successor(current, bid.id, bid.amount)
  }

  /**
   UPDATE auctions. The optimistic one reads the clock and evaluates its WHERE on the row it finds before any wait.
   */
  function IssueUpdate(s: State, c: CallId): (t: State)
    requires c in s.calls && s.calls[c].pc.Updating? && s.calls[c].command.auction in s.auctions
    ensures OwnStep(s, c, t) && LocalFlow(s, c, t)
  {
    var call := s.calls[c];
    var pc := call.pc;
    var a := call.command.auction;
    if call.strategy.Optimistic? then
      if SqlGuard(s.auctions[a], pc.row.version, call.command.amount, s.clock)
      then Goto(s, c, UpdateWaiting(pc.row, pc.now, pc.bid, s.clock))
      else Goto(s, c, Closing(Missed(Miss(pc.row.version, s.clock))))
    else
      Goto(s, c, Committing(pc.row, pc.now, pc.bid, pc.now, UpdatedRow(call, s.auctions[a], pc.row, pc.bid)))
      .(locks := s.locks[a := c])
  }

  /** The optimistic UPDATE owns the row lock and evaluates its WHERE again on the newest row. */
  function FinishUpdate(s: State, c: CallId): (t: State)
    requires c in s.calls && s.calls[c].pc.UpdateWaiting? && s.calls[c].command.auction in s.auctions
    ensures OwnStep(s, c, t) && LocalFlow(s, c, t)
  {
    var call := s.calls[c];
    var pc := call.pc;
    var a := call.command.auction;
    if SqlGuard(s.auctions[a], pc.row.version, call.command.amount, pc.guardedAt)
    then Goto(s, c, Committing(pc.row, pc.now, pc.bid, pc.guardedAt, UpdatedRow(call, s.auctions[a], pc.row, pc.bid)))
         .(locks := s.locks[a := c])
    else Goto(s, c, Closing(Missed(Miss(pc.row.version, pc.guardedAt))))
  }

  /** COMMIT of a transaction that wrote: both writes reach the tables, everything held is given back. */
  function CommitBid(s: State, c: CallId): (t: State)
    requires c in s.calls && s.calls[c].pc.Committing?
    ensures OwnStep(s, c, t) && LocalFlow(s, c, t)
  {
    var call := s.calls[c];
    var pc := call.pc;
    Released(Goto(s, c, Done(Accepted(pc.bid, call.attempt, call.attempt - 1))), c)
    .(auctions := s.auctions[call.command.auction := pc.next],
      log := s.log + [Commit(pc.bid, c, pc.row, pc.now, pc.guardedAt)])
  }

  /** Leave a block that wrote nothing that lasts: COMMIT or ROLLBACK, and give everything back. */
  function Close(s: State, c: CallId): (t: State)
    requires c in s.calls && s.calls[c].pc.Closing?
    ensures OwnStep(s, c, t) && LocalFlow(s, c, t)
  {
    var call := s.calls[c];
    var after := match call.pc.exit
                 case Return(o) => call.(pc := Done(o))
                 case Missed(miss) => call.(pc := Reconnecting(Classify), misses := call.misses + [miss])
                 case Duplicate => call.(pc := Reconnecting(Resolve))
                 case Retry => call.(pc := Connecting, attempt := call.attempt + 1)
                 case Fail(e) => call.(pc := Raised(e));
    Released(s, c).(calls := s.calls[c := after])
  }

  /** The request lookup after a miss or after a unique violation. */
  function LookUpAgain(s: State, c: CallId): (t: State)
    requires c in s.calls && s.calls[c].pc.Relooking?
    ensures OwnStep(s, c, t) && LocalFlow(s, c, t)
  {
    var call := s.calls[c];
    Goto(s, c,
         match ExistingBid(s.log, call.command.request)
         case Some(b) => Closing(Return(ReplayOrReject(b, call.command, 1, 0)))
         case None => if call.pc.purpose.Classify? then Rereading else Closing(Fail(UnresolvedDuplicate)))
  }

  function ReadAgain(s: State, c: CallId): (t: State)
    requires c in s.calls && s.calls[c].pc.Rereading?
    ensures OwnStep(s, c, t) && LocalFlow(s, c, t)
  {
    var call := s.calls[c];
    var a := call.command.auction;
    Goto(s, c,
         if a !in s.auctions then Closing(Return(Rejected(AuctionNotFound, None, call.attempt, call.attempt)))
         else Retiming(s.auctions[a]))
  }

  function ReadClockAgain(s: State, c: CallId): (t: State)
    requires c in s.calls && s.calls[c].pc.Retiming?
    ensures OwnStep(s, c, t) && LocalFlow(s, c, t)
  {
    var call := s.calls[c];
    Goto(s, c, DecideAfterMiss(call, call.pc.row, s.clock))
  }

  /** The next statement of a ready call; id is the identifier it draws if it inserts. */
  function Execute(s: State, c: CallId, id: BidId): (t: State)
    requires Ready(s, c)
    ensures OwnStep(s, c, t) && LocalFlow(s, c, t)
  {
    match s.calls[c].pc
    case Connecting => Connect(s, c)
    case Reconnecting(_) => Connect(s, c)
    case Lookup => LookUpRequest(s, c)
    case Reading => ReadAuction(s, c)
    case Timing(_) => ReadClock(s, c)
    case Rechecking(_, _) => Recheck(s, c)
    case Inserting(_, _) => IssueInsert(s, c, id)
    case InsertWaiting(_, _, _) => FinishInsert(s, c)
    case Updating(_, _, _) => IssueUpdate(s, c)
    case UpdateWaiting(_, _, _, _) => FinishUpdate(s, c)
    case Committing(_, _, _, _, _) => CommitBid(s, c)
    case Closing(_) => Close(s, c)
    case Relooking(_) => LookUpAgain(s, c)
    case Rereading => ReadAgain(s, c)
    case Retiming(_) => ReadClockAgain(s, c)
  }

  // ----- Steps

  datatype Action =
    | Begin(call: CallId, strategy: Strategy, command: Command)
    | Tick(now: Instant)
    | Statement(call: CallId, id: BidId)
    | Abort(call: CallId, fault: Fault)

  predicate ValidStrategy(strategy: Strategy) {
    strategy.Optimistic? ==> strategy.maxAttempts > 0
  }

  function Started(s: State, c: CallId, strategy: Strategy, command: Command): State {
    s.(calls := s.calls[c := Call(strategy, command, 1, [], Connecting)])
  }

  /** A fault ends a call before it has a connection, or makes the block it is in roll back. */
  function Aborted(s: State, c: CallId, fault: Fault): State
    requires c in s.calls
  {
    var call := s.calls[c];
    Goto(s, c, if HoldsConnection(call.pc) then Closing(Fail(ErrorFor(call, fault))) else Raised(ErrorFor(call, fault)))
  }

  predicate Enabled(s: State, action: Action) {
    match action
    case Begin(c, strategy, command) => c !in s.calls && ValidStrategy(strategy) && ValidCommand(command)
    case Tick(now) => s.clock <= now
    case Statement(c, id) => Ready(s, c) && (s.calls[c].pc.Inserting? ==> id !in s.drawn)
    case Abort(c, _) => c in s.calls && !Finished(s.calls[c].pc) && !s.calls[c].pc.Closing?
  }

  function Perform(s: State, action: Action): State
    requires Enabled(s, action)
  {
    match action
    case Begin(c, strategy, command) => Started(s, c, strategy, command)
    case Tick(now) => s.(clock := now)
    case Statement(c, id) => Execute(s, c, id)
    case Abort(c, fault) => Aborted(s, c, fault)
  }

  // ----- Runs

  ghost predicate Initial(s: State) {
    && s.poolSize > 0
    && s.auctions == s.catalog
    && (forall a | a in s.catalog ::
          s.catalog[a].id == a && ValidAuction(s.catalog[a]) && Fresh(s.catalog[a]) == s.catalog[a])
    && s.log == [] && s.locks == map[] && s.reserved == map[] && s.connections == {} && s.drawn == map[]
       && s.calls == map[]
  }

  /** A finite run: states[k + 1] is states[k] after actions[k]. */
  datatype Run = Run(states: seq<State>, actions: seq<Action>)

  predicate Follows(run: Run, k: int) {
    && 0 <= k < |run.actions| && k + 1 < |run.states|
    && Enabled(run.states[k], run.actions[k]) && run.states[k + 1] == Perform(run.states[k], run.actions[k])
  }

  ghost predicate IsRun(run: Run) {
    && |run.states| == |run.actions| + 1
    && Initial(run.states[0])
    && forall k | 0 <= k < |run.actions| :: Follows(run, k)
  }

  function Last(run: Run): State
    requires run.states != []
  {
    run.states[|run.states| - 1]
  }

  function Extended(run: Run, action: Action): Run
    requires run.states != [] && Enabled(Last(run), action)
  {
    Run(run.states + [Perform(Last(run), action)], run.actions + [action])
  }

  lemma ExtendedIsRun(run: Run, action: Action)
    requires IsRun(run) && Enabled(Last(run), action)
    ensures IsRun(Extended(run, action)) && Last(Extended(run, action)) == Perform(Last(run), action)
  {
    var longer := Extended(run, action);
    forall k | 0 <= k < |longer.actions| ensures Follows(longer, k) {
      if k < |run.actions| {
        assert Follows(run, k);
      }
    }
  }
}
