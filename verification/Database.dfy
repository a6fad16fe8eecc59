/**
 The database as an object whose tables, locks and sessions statements update in place. Every method is one statement of
 one call, proved to be exactly that call's step; between statements any number of steps of other calls may be taken.
 The ghost run records the whole history, so what is proved of all runs holds of every Database.
 */
module DatabaseObject {
  import opened Wrappers
  import opened Models
  import opened Rules
  import opened Transactions
  import opened BaseInvariant
  import opened Preservation
  import opened Progress
  import opened Outcomes
  import opened Faults
  import opened Deadlock

  /** The call that takes a step, if any. */
  function Actor(action: Action): Option<CallId> {
    match action
    case Begin(c, _, _) => Some(c)
    case Tick(_) => None
    case Statement(c, _) => Some(c)
    case Abort(c, _) => Some(c)
  }

  /** The later run has the earlier one's states first. */
  ghost predicate Continues(before: Run, after: Run) {
    before.states <= after.states
  }

  class Database {
    const catalog: map<AuctionId, Auction>
    const poolSize: nat
    var auctions: map<AuctionId, Auction>
    var log: seq<Commit>
    var clock: Instant
    var locks: map<AuctionId, CallId>
    var reserved: map<RequestId, CallId>
    var connections: set<CallId>
    var drawn: map<BidId, CallId>
    var calls: map<CallId, Call>
    ghost var run: Run

    function Snapshot(): State
      reads this
    {
      State(catalog, poolSize, auctions, log, clock, locks, reserved, connections, drawn, calls)
    }

    /** The fields are the last state of a run. */
    ghost predicate Valid()
      reads this
    {
      IsRun(run) && Last(run) == Snapshot()
    }

    constructor (created: map<AuctionId, Auction>, size: nat, now: Instant)
      requires size > 0
      requires forall a | a in created ::
               created[a].id == a && ValidAuction(created[a]) && Fresh(created[a]) == created[a]
      ensures Valid()
      ensures Snapshot() == State(created, size, created, [], now, map[], map[], {}, map[], map[])
    {
      catalog, poolSize, auctions, log, clock := created, size, created, [], now;
      locks, reserved, connections, drawn, calls := map[], map[], {}, map[], map[];
      run := Run([State(created, size, created, [], now, map[], map[], {}, map[], map[])], []);
    }

    /** Record that the fields have just made an enabled step. */
    ghost method Record(action: Action)
      requires IsRun(run) && Enabled(Last(run), action) && Snapshot() == Perform(Last(run), action)
      modifies this`run
      ensures Valid() && Continues(old(run), run)
    {
      ExtendedIsRun(run, action);
      run := Extended(run, action);
    }

    method SetPc(c: CallId, pc: Pc)
      requires c in calls
      modifies this`calls
      ensures calls == old(calls)[c := old(calls)[c].(pc := pc)]
    {
      calls := calls[c := calls[c].(pc := pc)];
    }

    /** Give back whatever the call owns. */
    method Release(c: CallId)
      requires c in calls
      modifies this`locks, this`reserved, this`connections
      ensures Snapshot() == Released(old(Snapshot()), c)
    {
      var command := calls[c].command;
      if command.auction in locks && locks[command.auction] == c {
        locks := locks - {command.auction};
      }
      if command.request in reserved && reserved[command.request] == c {
        reserved := reserved - {command.request};
      }
      connections := connections - {c};
    }

    /** SELECT FROM bids WHERE request_id = request: scan the table. */
    method SelectBid(request: RequestId) returns (existing: Option<Bid>)
      ensures existing == ExistingBid(log, request)
    {
      var k := |log|;
      assert log[..k] == log;
      while k > 0
        invariant 0 <= k <= |log|
        invariant ExistingBid(log[..k], request) == ExistingBid(log, request)
      {
        assert log[..k][..k - 1] == log[..k - 1];
        if log[k - 1].bid.request == request {
          return Some(log[k - 1].bid);
        }
        k := k - 1;
      }
      existing := None;
    }

    // ----- Other calls

    /** A step that is not this call's. */
    method StepOfOther(c: CallId, action: Action)
      requires Valid() && Enabled(Snapshot(), action) && Actor(action) != Some(c)
      modifies this
      ensures Valid() && Continues(old(run), run) && Snapshot() == Perform(old(Snapshot()), action)
      ensures c in calls <==> c in old(calls)
      ensures c in calls ==> calls[c] == old(calls)[c]
    {
      var t := Perform(Snapshot(), action);
      auctions, log, clock, locks := t.auctions, t.log, t.clock, t.locks;
      reserved, connections, drawn, calls := t.reserved, t.connections, t.drawn, t.calls;
      StepGrows(Last(run), action);
      Record(action);
    }

    /** Any number of steps that are not this call's, of calls old or new, with the clock moving. */
    method Interfere(c: CallId)
      requires Valid()
      modifies this
      ensures Valid() && Continues(old(run), run)
      ensures c in calls <==> c in old(calls)
      ensures c in calls ==> calls[c] == old(calls)[c]
    {
      var steps: nat := *;
      while steps > 0
        invariant Valid() && Continues(old(run), run)
        invariant c in calls <==> c in old(calls)
        invariant c in calls ==> calls[c] == old(calls)[c]
        decreases steps
      {
        var action: Action := *;
        if Enabled(Snapshot(), action) && Actor(action) != Some(c) {
          StepOfOther(c, action);
        }
        steps := steps - 1;
      }
    }

    /** What is proved of all runs holds of the fields. */
    lemma ValidKeepsInv()
      requires Valid()
      ensures Inv(Snapshot())
    {
      RunKeepsInv(run, |run.states| - 1);
    }

    /** A fault strikes the call: whatever block it is in is left, and it has raised the error that the fault gives. */
    method Strike(c: CallId, fault: Fault) returns (error: Error)
      requires Valid() && c in calls && !Finished(calls[c].pc) && !calls[c].pc.Closing?
      modifies this
      ensures Valid() && Continues(old(run), run) && c in calls
      ensures calls[c] == old(calls)[c].(pc := Raised(error)) && HoldsNothing(Snapshot(), c) && FromOutside(error)
    {
      error := ErrorFor(calls[c], fault);
      if HoldsConnection(calls[c].pc) {
        SetPc(c, Closing(Fail(error)));
        Record(Abort(c, fault));
        Leave(c);
      } else {
        SetPc(c, Raised(error));
        Record(Abort(c, fault));
        ValidKeepsInv();
        FinishedHoldsNothing(Snapshot(), c);
      }
    }

    /**
     Let others step until this call's next statement can be made, or a fault ends the call, which then owns nothing and
     has raised the error that its strategy and its block give for that fault.
     */
    method Await(c: CallId) returns (turn: Result<(), Error>)
      requires Valid() && c in calls && !Finished(calls[c].pc) && !calls[c].pc.Closing?
      modifies this
      ensures Valid() && Continues(old(run), run) && c in calls
      ensures turn.Ok? ==> calls[c] == old(calls)[c] && Ready(Snapshot(), c)
      ensures turn.Err? ==> calls[c] == old(calls)[c].(pc := Raised(turn.error)) && HoldsNothing(Snapshot(), c)
      ensures turn.Err? ==> FromOutside(turn.error) && EndedByFault(run, |run.states| - 1, c, turn.error)
    {
      Interfere(c);
      var fault: Option<Fault> := *;
      if fault.None? && Ready(Snapshot(), c) {
        return Ok(());
      }
      var error := Strike(c, if fault.Some? then fault.value else LockNotAvailable);
      FaultWasMapped(run, |run.states| - 1, c, error);
      turn := Err(error);
    }

    // ----- Statements

    /** A bid identifier never drawn before. */
    method DrawId() returns (id: BidId)
      ensures id !in drawn
    {
      ghost var bound := IdsAreBounded(drawn.Keys);
      assert bound !in drawn;
      id :| id !in drawn;
    }

    method StartCall(c: CallId, strategy: Strategy, command: Command)
      requires Valid() && c !in calls && ValidStrategy(strategy) && ValidCommand(command)
      modifies this
      ensures Valid() && Continues(old(run), run) && Snapshot() == Started(old(Snapshot()), c, strategy, command)
    {
      calls := calls[c := Call(strategy, command, 1, [], Connecting)];
      Record(Begin(c, strategy, command));
    }

    method OpenConnection(c: CallId)
      requires Valid() && Ready(Snapshot(), c) && (calls[c].pc.Connecting? || calls[c].pc.Reconnecting?)
      modifies this
      ensures Valid() && Continues(old(run), run) && Snapshot() == Connect(old(Snapshot()), c)
    {
      SetPc(c, if calls[c].pc.Connecting? then Lookup else Relooking(calls[c].pc.purpose));
      connections := connections + {c};
      Record(Statement(c, 0));
    }

    /** The first look at the request id. */
    method FindRequest(c: CallId) returns (existing: Option<Bid>)
      requires Valid() && Ready(Snapshot(), c) && calls[c].pc.Lookup?
      modifies this
      ensures Valid() && Continues(old(run), run) && Snapshot() == LookUpRequest(old(Snapshot()), c)
      ensures existing == ExistingBid(old(log), old(calls)[c].command.request)
    {
      var call := calls[c];
      existing := SelectBid(call.command.request);
      if existing.Some? {
        SetPc(c, Closing(Return(ReplayOrReject(existing.value, call.command, call.attempt, call.attempt - 1))));
      } else {
        SetPc(c, Reading);
      }
      Record(Statement(c, 0));
    }

    /** SELECT the auction row, FOR UPDATE in the pessimistic strategy. */
    method SelectAuction(c: CallId) returns (auction: Option<Auction>)
      requires Valid() && Ready(Snapshot(), c) && calls[c].pc.Reading?
      modifies this
      ensures Valid() && Continues(old(run), run) && Snapshot() == ReadAuction(old(Snapshot()), c)
      ensures var a := old(calls)[c].command.auction;
              auction == if a in old(auctions) then Some(old(auctions)[a]) else None
    {
      var call := calls[c];
      var a := call.command.auction;
      if a !in auctions {
        auction := None;
        SetPc(c, Closing(Return(Rejected(AuctionNotFound, None, call.attempt, 0))));
      } else {
        auction := Some(auctions[a]);
        if call.strategy.Pessimistic? {
          locks := locks[a := c];
        }
        SetPc(c, Timing(auctions[a]));
      }
      Record(Statement(c, 0));
    }

    method DatabaseTime(c: CallId) returns (now: Instant)
      requires Valid() && Ready(Snapshot(), c) && calls[c].pc.Timing?
      modifies this
      ensures Valid() && Continues(old(run), run) && Snapshot() == ReadClock(old(Snapshot()), c)
      ensures now == old(clock)
    {
      now := clock;
      var call := calls[c];
      if call.strategy.Pessimistic? {
        SetPc(c, Rechecking(call.pc.row, now));
      } else {
        SetPc(c, Decide(call, call.pc.row, now));
      }
      Record(Statement(c, 0));
    }

    /** The second look at the request id, under the row lock. */
    method FindRequestLocked(c: CallId) returns (existing: Option<Bid>)
      requires Valid() && Ready(Snapshot(), c) && calls[c].pc.Rechecking?
      modifies this
      ensures Valid() && Continues(old(run), run) && Snapshot() == Recheck(old(Snapshot()), c)
      ensures existing == ExistingBid(old(log), old(calls)[c].command.request)
    {
      var call := calls[c];
      existing := SelectBid(call.command.request);
      if existing.Some? {
        SetPc(c, Closing(Return(ReplayOrReject(existing.value, call.command, call.attempt, call.attempt - 1))));
      } else {
        SetPc(c, Decide(call, call.pc.row, call.pc.now));
      }
      Record(Statement(c, 0));
    }

    /** INSERT INTO bids is issued with an identifier drawn now; accepted_at defaults to the clock. */
    method InsertBid(c: CallId, id: BidId) returns (bid: Bid)
      requires Valid() && Ready(Snapshot(), c) && calls[c].pc.Inserting? && id !in drawn
      modifies this
      ensures Valid() && Continues(old(run), run) && Snapshot() == IssueInsert(old(Snapshot()), c, id)
      ensures calls[c].pc == InsertWaiting(old(calls)[c].pc.row, old(calls)[c].pc.now, bid)
    {
      var call := calls[c];
      bid := Bid(id, call.command.request, call.command.auction, Strip(call.command.bidder), call.command.amount,
                 call.pc.row.version + 1, clock);
      drawn := drawn[id := c];
      SetPc(c, InsertWaiting(call.pc.row, call.pc.now, bid));
      Record(Statement(c, id));
    }

    /** The INSERT gets its entry in the unique index on request ids, or violates it. */
    method EnterIndex(c: CallId) returns (entered: bool)
      requires Valid() && Ready(Snapshot(), c) && calls[c].pc.InsertWaiting?
      modifies this
      ensures Valid() && Continues(old(run), run) && Snapshot() == FinishInsert(old(Snapshot()), c)
      ensures entered <==> ExistingBid(old(log), old(calls)[c].command.request).None?
    {
      var call := calls[c];
      var existing := SelectBid(call.command.request);
      entered := existing.None?;
      if entered {
        reserved := reserved[call.command.request := c];
        SetPc(c, Updating(call.pc.row, call.pc.now, call.pc.bid));
      } else {
        SetPc(c, Closing(Duplicate));
      }
      Record(Statement(c, 0));
    }

    /**
     UPDATE auctions; the optimistic one only evaluates its guard on the row it finds, before waiting for the lock.
     */
    method UpdateAuction(c: CallId)
      requires Valid() && Ready(Snapshot(), c) && calls[c].pc.Updating?
      modifies this
      ensures Valid() && Continues(old(run), run) && Snapshot() == IssueUpdate(old(Snapshot()), c)
    {
      var call := calls[c];
      var pc, a := call.pc, call.command.auction;
      if call.strategy.Optimistic? {
        if SqlGuard(auctions[a], pc.row.version, call.command.amount, clock) {
          SetPc(c, UpdateWaiting(pc.row, pc.now, pc.bid, clock));
        } else {
          SetPc(c, Closing(Missed(Miss(pc.row.version, clock))));
        }
      } else {
        locks := locks[a := c];
        SetPc(c, Committing(pc.row, pc.now, pc.bid, pc.now, UpdatedRow(call, auctions[a], pc.row, pc.bid)));
      }
      Record(Statement(c, 0));
    }

    /** The optimistic UPDATE evaluates its guard again on the newest row, under the lock. */
    method RecheckGuard(c: CallId)
      requires Valid() && Ready(Snapshot(), c) && calls[c].pc.UpdateWaiting?
      modifies this
      ensures Valid() && Continues(old(run), run) && Snapshot() == FinishUpdate(old(Snapshot()), c)
    {
      var call := calls[c];
      var pc, a := call.pc, call.command.auction;
      if SqlGuard(auctions[a], pc.row.version, call.command.amount, pc.guardedAt) {
        locks := locks[a := c];
        SetPc(c, Committing(pc.row, pc.now, pc.bid, pc.guardedAt, UpdatedRow(call, auctions[a], pc.row, pc.bid)));
      } else {
        SetPc(c, Closing(Missed(Miss(pc.row.version, pc.guardedAt))));
      }
      Record(Statement(c, 0));
    }

    /** COMMIT: the bid and the row reach the tables together. */
    method CommitWrites(c: CallId)
      requires Valid() && Ready(Snapshot(), c) && calls[c].pc.Committing?
      modifies this
      ensures Valid() && Continues(old(run), run) && Snapshot() == CommitBid(old(Snapshot()), c)
    {
      var call := calls[c];
      var pc := call.pc;
      auctions := auctions[call.command.auction := pc.next];
      log := log + [Commit(pc.bid, c, pc.row, pc.now, pc.guardedAt)];
      SetPc(c, Done(Accepted(pc.bid, call.attempt, call.attempt - 1)));
      Release(c);
      Record(Statement(c, 0));
    }

    /** COMMIT or ROLLBACK of a block that wrote nothing that lasts: everything owned is given back. */
    method CloseBlock(c: CallId)
      requires Valid() && c in calls && calls[c].pc.Closing?
      modifies this
      ensures Valid() && Continues(old(run), run) && Snapshot() == Close(old(Snapshot()), c)
      ensures HoldsNothing(Snapshot(), c)
    {
      ValidKeepsInv();
      ClosedBlockHoldsNothing(Snapshot(), c);
      var call := calls[c];
      Release(c);
      match call.pc.exit {
        case Return(o) => SetPc(c, Done(o));
        case Missed(miss) => calls := calls[c := call.(pc := Reconnecting(Classify), misses := call.misses + [miss])];
        case Duplicate => SetPc(c, Reconnecting(Resolve));
        case Retry => calls := calls[c := call.(pc := Connecting, attempt := call.attempt + 1)];
        case Fail(e) => SetPc(c, Raised(e));
      }
      Record(Statement(c, 0));
    }

    /** Leave such a block, after others may have stepped. */
    method Leave(c: CallId)
      requires Valid() && c in calls && calls[c].pc.Closing?
      modifies this
      ensures Valid() && Continues(old(run), run) && c in calls && HoldsNothing(Snapshot(), c)
      ensures var before := old(calls)[c];
              calls[c] == match before.pc.exit
                          case Return(o) => before.(pc := Done(o))
                          case Missed(miss) => before.(pc := Reconnecting(Classify), misses := before.misses + [miss])
                          case Duplicate => before.(pc := Reconnecting(Resolve))
                          case Retry => before.(pc := Connecting, attempt := before.attempt + 1)
                          case Fail(e) => before.(pc := Raised(e))
    {
      Interfere(c);
      CloseBlock(c);
    }

    /** The look at the request id after a miss or a unique violation. */
    method FindRequestAgain(c: CallId) returns (existing: Option<Bid>)
      requires Valid() && Ready(Snapshot(), c) && calls[c].pc.Relooking?
      modifies this
      ensures Valid() && Continues(old(run), run) && Snapshot() == LookUpAgain(old(Snapshot()), c)
      ensures existing == ExistingBid(old(log), old(calls)[c].command.request)
    {
      var call := calls[c];
      existing := SelectBid(call.command.request);
      if existing.Some? {
        SetPc(c, Closing(Return(ReplayOrReject(existing.value, call.command, 1, 0))));
      } else if call.pc.purpose.Classify? {
        SetPc(c, Rereading);
      } else {
        SetPc(c, Closing(Fail(UnresolvedDuplicate)));
      }
      Record(Statement(c, 0));
    }

    method SelectAuctionAgain(c: CallId) returns (auction: Option<Auction>)
      requires Valid() && Ready(Snapshot(), c) && calls[c].pc.Rereading?
      modifies this
      ensures Valid() && Continues(old(run), run) && Snapshot() == ReadAgain(old(Snapshot()), c)
      ensures var a := old(calls)[c].command.auction;
              auction == if a in old(auctions) then Some(old(auctions)[a]) else None
    {
      var call := calls[c];
      var a := call.command.auction;
      if a !in auctions {
        auction := None;
        SetPc(c, Closing(Return(Rejected(AuctionNotFound, None, call.attempt, call.attempt))));
      } else {
        auction := Some(auctions[a]);
        SetPc(c, Retiming(auctions[a]));
      }
      Record(Statement(c, 0));
    }

    method DatabaseTimeAgain(c: CallId) returns (now: Instant)
      requires Valid() && Ready(Snapshot(), c) && calls[c].pc.Retiming?
      modifies this
      ensures Valid() && Continues(old(run), run) && Snapshot() == ReadClockAgain(old(Snapshot()), c)
      ensures now == old(clock)
    {
      now := clock;
      SetPc(c, DecideAfterMiss(calls[c], calls[c].pc.row, now));
      Record(Statement(c, 0));
    }
  }
}
