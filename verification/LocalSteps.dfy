/**
 The program of one call by itself: what its next statement makes of its locals, given what that statement sees of the
 database. Every statement of a run does this to its own call, so that what passes from local to local can be read here.
 */
module LocalSteps {
  import opened Wrappers
  import opened Models
  import opened Rules
  import opened Transactions

  /** What a statement sees: the committed bid with its request id, its auction's newest row, and the clock. */
  datatype View = View(existing: Option<Bid>, row: Option<Auction>, clock: Instant)

  function Sees(s: State, c: CallId): View
    requires c in s.calls
  {
    var command := s.calls[c].command;
    View(ExistingBid(s.log, command.request),
         if command.auction in s.auctions then Some(s.auctions[command.auction]) else None, s.clock)
  }

  /** After a look for the request id: the reply to the bid found, or this program counter. */
  function AfterLook(call: Call, view: View, attempts: int, conflicts: int, otherwise: Pc): Pc {
    match view.existing
    case Some(b) => Closing(Return(ReplayOrReject(b, call.command, attempts, conflicts)))
    case None => otherwise
  }

  /** After a read of the auction: this program counter with the row, or the answer that there is none. */
  function AfterRead(call: Call, view: View, conflicts: int): Pc {
    match view.row
    case None => Closing(Return(Rejected(AuctionNotFound, None, call.attempt, conflicts)))
    case Some(row) => if call.pc.Rereading? then Retiming(row) else Timing(row)
  }

  /** After an update: the optimistic one may miss, before or after its wait; the others find their row. */
  function AfterUpdate(call: Call, view: View): Pc
    requires call.pc.Updating? || call.pc.UpdateWaiting?
  {
    var pc := call.pc;
    match view.row
    case None => pc
    case Some(row) =>
      var guardedAt := if pc.UpdateWaiting? then pc.guardedAt else if call.strategy.Optimistic? then view.clock
          else pc.now;
      if (call.strategy.Optimistic? || pc.UpdateWaiting?)
         && !SqlGuard(row, pc.row.version, call.command.amount, guardedAt)
      then Closing(Missed(Miss(pc.row.version, guardedAt)))
      else if call.strategy.Optimistic? && pc.Updating? then UpdateWaiting(pc.row, pc.now, pc.bid, guardedAt)
      else Committing(pc.row, pc.now, pc.bid, guardedAt, UpdatedRow(call, row, pc.row, pc.bid))
  }

  function AfterClose(call: Call): Call
    requires call.pc.Closing?
  {
    match call.pc.exit
    case Return(o) => call.(pc := Done(o))
    case Missed(miss) => call.(pc := Reconnecting(Classify), misses := call.misses + [miss])
    case Duplicate => call.(pc := Reconnecting(Resolve))
    case Retry => call.(pc := Connecting, attempt := call.attempt + 1)
    case Fail(e) => call.(pc := Raised(e))
  }

  /** The program counter after any statement but one that closes a block. */
  function NextPc(call: Call, view: View, id: BidId): Pc {
    match call.pc
    case Connecting => Lookup
    case Reconnecting(purpose) => Relooking(purpose)
    case Lookup => AfterLook(call, view, call.attempt, call.attempt - 1, Reading)
    case Reading => AfterRead(call, view, 0)
    case Timing(row) =>
      if call.strategy.Pessimistic? then Rechecking(row, view.clock) else Decide(call, row, view.clock)
    case Rechecking(row, now) =>
      AfterLook(call, view, call.attempt, call.attempt - 1, Decide(call, row, now))
    case Inserting(row, now) => InsertWaiting(row, now, TentativeBid(call.command, id, row.version + 1, view.clock))
    case InsertWaiting(row, now, bid) => if view.existing.Some? then Closing(Duplicate) else Updating(row, now, bid)
    case Updating(_, _, _) => AfterUpdate(call, view)
    case UpdateWaiting(_, _, _, _) => AfterUpdate(call, view)
    case Committing(_, _, bid, _, _) => Done(Accepted(bid, call.attempt, call.attempt - 1))
    case Relooking(purpose) =>
      AfterLook(call, view, 1, 0, if purpose.Classify? then Rereading else Closing(Fail(UnresolvedDuplicate)))
    case Rereading => AfterRead(call, view, call.attempt)
    case Retiming(row) => DecideAfterMiss(call, row, view.clock)
    case _ => call.pc
  }

  /** The call after its next statement; id is the identifier it draws if it inserts. */
  function Next(call: Call, view: View, id: BidId): Call {
    if call.pc.Closing? then AfterClose(call) else call.(pc := NextPc(call, view, id))
  }

  // ----- The statements of a run

  /** The statements that look for the request id. */
  predicate LooksUp(pc: Pc) {
    pc.Lookup? || pc.Rechecking? || pc.Relooking?
  }

  /** The statements that read the auction or the clock. */
  predicate Reads(pc: Pc) {
    pc.Reading? || pc.Rereading? || pc.Timing? || pc.Retiming?
  }

  /** The statements that write, each in two halves. */
  predicate Writes(pc: Pc) {
    pc.Inserting? || pc.InsertWaiting? || pc.Updating? || pc.UpdateWaiting?
  }

  lemma LookIsNext(s: State, c: CallId, id: BidId)
    requires Ready(s, c) && (s.calls[c].pc.Lookup? || s.calls[c].pc.Relooking?)
    ensures Execute(s, c, id).calls[c] == Next(s.calls[c], Sees(s, c), id)
  {
  }

  lemma RecheckIsNext(s: State, c: CallId, id: BidId)
    requires Ready(s, c) && s.calls[c].pc.Rechecking?
    ensures Execute(s, c, id).calls[c] == Next(s.calls[c], Sees(s, c), id)
  {
  }

  lemma ReadIsNext(s: State, c: CallId, id: BidId)
    requires Ready(s, c)
    requires var pc := s.calls[c].pc; pc.Reading? || pc.Rereading? || pc.Timing? || pc.Retiming?
    ensures Execute(s, c, id).calls[c] == Next(s.calls[c], Sees(s, c), id)
  {
  }

  lemma WriteIsNext(s: State, c: CallId, id: BidId)
    requires Ready(s, c)
    requires var pc := s.calls[c].pc; pc.Inserting? || pc.InsertWaiting? || pc.Updating? || pc.UpdateWaiting?
    ensures Execute(s, c, id).calls[c] == Next(s.calls[c], Sees(s, c), id)
  {
  }

  lemma LeaveIsNext(s: State, c: CallId, id: BidId)
    requires Ready(s, c)
    requires var pc := s.calls[c].pc; pc.Connecting? || pc.Reconnecting? || pc.Committing? || pc.Closing?
    ensures Execute(s, c, id).calls[c] == Next(s.calls[c], Sees(s, c), id)
  {
  }

  /** A statement of a run does to its call what the call's own program says. */
  lemma ExecuteIsNext(s: State, c: CallId, id: BidId)
    requires Ready(s, c)
    ensures Execute(s, c, id).calls[c] == Next(s.calls[c], Sees(s, c), id)
  {
    if s.calls[c].pc.Rechecking? {
      RecheckIsNext(s, c, id);
    } else if LooksUp(s.calls[c].pc) {
      LookIsNext(s, c, id);
    } else if Reads(s.calls[c].pc) {
      ReadIsNext(s, c, id);
    } else if Writes(s.calls[c].pc) {
      WriteIsNext(s, c, id);
    } else {
      LeaveIsNext(s, c, id);
    }
  }
}
