/** Every step of every call keeps the base invariant. */
module Preservation {
  import opened Wrappers
  import opened Models
  import opened Rules
  import opened Transactions
  import opened BaseInvariant

  /** A step that only moves a call's program counter, its resources unchanged. */
  lemma GotoKeepsInv(s: State, c: CallId, pc: Pc)
    requires Inv(s) && c in s.calls && !Finished(s.calls[c].pc)
    requires CallOk(s.catalog, s.log, s.clock, s.drawn, c, s.calls[c].(pc := pc))
    requires Protected(s.auctions, s.calls[c].(pc := pc))
    requires HoldsConnection(s.calls[c].pc) <==> HoldsConnection(pc)
    requires MayLock(s.calls[c]) ==> MayLock(s.calls[c].(pc := pc))
    requires MustLock(s.calls[c].(pc := pc)) ==> MustLock(s.calls[c])
    requires MayReserve(s.calls[c]) ==> MayReserve(s.calls[c].(pc := pc))
    requires MustReserve(s.calls[c].(pc := pc)) ==> MustReserve(s.calls[c])
    ensures Inv(Goto(s, c, pc))
  {
    var call := s.calls[c].(pc := pc);
    LocksKept(s.locks, s.calls, c, call);
    ReservedKept(s.reserved, s.calls, c, call);
    ConnectionsKept(s.connections, s.calls, c, call);
    FrameStep(s, c, call, Goto(s, c, pc));
  }

  lemma LookUpRequestKeepsInv(s: State, c: CallId)
    requires Inv(s) && Ready(s, c) && s.calls[c].pc.Lookup?
    ensures Inv(LookUpRequest(s, c))
  {
    GotoKeepsInv(s, c, LookUpRequest(s, c).calls[c].pc);
  }

  lemma ReadClockKeepsInv(s: State, c: CallId)
    requires Inv(s) && Ready(s, c) && s.calls[c].pc.Timing?
    ensures Inv(ReadClock(s, c))
  {
    assert CallOk(s.catalog, s.log, s.clock, s.drawn, c, s.calls[c]) && Protected(s.auctions, s.calls[c]);
    RecordedByNow(s, s.calls[c].pc.row);
    GotoKeepsInv(s, c, ReadClock(s, c).calls[c].pc);
  }

  lemma RecheckKeepsInv(s: State, c: CallId)
    requires Inv(s) && Ready(s, c) && s.calls[c].pc.Rechecking?
    ensures Inv(Recheck(s, c))
  {
    assert CallOk(s.catalog, s.log, s.clock, s.drawn, c, s.calls[c]) && Protected(s.auctions, s.calls[c]);
    GotoKeepsInv(s, c, Recheck(s, c).calls[c].pc);
  }

  lemma LookUpAgainKeepsInv(s: State, c: CallId)
    requires Inv(s) && Ready(s, c) && s.calls[c].pc.Relooking?
    ensures Inv(LookUpAgain(s, c))
  {
    GotoKeepsInv(s, c, LookUpAgain(s, c).calls[c].pc);
  }

  lemma ReadClockAgainKeepsInv(s: State, c: CallId)
    requires Inv(s) && Ready(s, c) && s.calls[c].pc.Retiming?
    ensures Inv(ReadClockAgain(s, c))
  {
    GotoKeepsInv(s, c, ReadClockAgain(s, c).calls[c].pc);
  }

  lemma StartedKeepsInv(s: State, c: CallId, strategy: Strategy, command: Command)
    requires Inv(s) && c !in s.calls && ValidStrategy(strategy) && ValidCommand(command)
    ensures Inv(Started(s, c, strategy, command))
  {
    var call := Call(strategy, command, 1, [], Connecting);
    LocksKept(s.locks, s.calls, c, call);
    ReservedKept(s.reserved, s.calls, c, call);
    ConnectionsKept(s.connections, s.calls, c, call);
    FrameStep(s, c, call, Started(s, c, strategy, command));
  }

  lemma ConnectKeepsInv(s: State, c: CallId)
    requires Inv(s) && c in s.calls && (s.calls[c].pc.Connecting? || s.calls[c].pc.Reconnecting?)
    ensures Inv(Connect(s, c))
  {
    var t := Connect(s, c);
    LocksKept(s.locks, s.calls, c, t.calls[c]);
    ReservedKept(s.reserved, s.calls, c, t.calls[c]);
    ConnectionsChanged(s.connections, s.calls, c, t.calls[c]);
    FrameStep(s, c, t.calls[c], t);
  }

  /** A step that takes the lock of the call's own row. */
  lemma LockingKeepsInv(s: State, c: CallId, pc: Pc)
    requires Inv(s) && c in s.calls && !Finished(s.calls[c].pc) && !s.calls[c].pc.Closing?
    requires LockFree(s, c, s.calls[c].command.auction)
    requires CallOk(s.catalog, s.log, s.clock, s.drawn, c, s.calls[c].(pc := pc))
    requires Protected(s.auctions, s.calls[c].(pc := pc))
    requires HoldsConnection(s.calls[c].pc) && HoldsConnection(pc)
    requires MustLock(s.calls[c].(pc := pc))
    requires MustReserve(s.calls[c]) <==> MustReserve(s.calls[c].(pc := pc))
    ensures Inv(Goto(s, c, pc).(locks := s.locks[s.calls[c].command.auction := c]))
  {
    var t := Goto(s, c, pc).(locks := s.locks[s.calls[c].command.auction := c]);
    LocksGained(s.locks, s.calls, c, t.calls[c]);
    ReservedKept(s.reserved, s.calls, c, t.calls[c]);
    ConnectionsKept(s.connections, s.calls, c, t.calls[c]);
    FrameStep(s, c, t.calls[c], t);
  }

  lemma ReadAuctionKeepsInv(s: State, c: CallId)
    requires Inv(s) && Ready(s, c) && s.calls[c].pc.Reading?
    ensures Inv(ReadAuction(s, c))
  {
    var call := s.calls[c];
    if call.command.auction !in s.auctions {
      GotoKeepsInv(s, c, Closing(Return(Rejected(AuctionNotFound, None, call.attempt, 0))));
    } else {
      var pc := Timing(s.auctions[call.command.auction]);
      NewestRowReadable(s, call.command.auction);
      assert CallOk(s.catalog, s.log, s.clock, s.drawn, c, call.(pc := pc));
      if call.strategy.Pessimistic? {
        LockingKeepsInv(s, c, pc);
      } else {
        GotoKeepsInv(s, c, pc);
      }
    }
  }

  lemma ReadAgainKeepsInv(s: State, c: CallId)
    requires Inv(s) && Ready(s, c) && s.calls[c].pc.Rereading?
    ensures Inv(ReadAgain(s, c))
  {
    if s.calls[c].command.auction in s.auctions {
      NewestRowReadable(s, s.calls[c].command.auction);
    }
    GotoKeepsInv(s, c, ReadAgain(s, c).calls[c].pc);
  }

  lemma DrawingKeepsInv(s: State, c: CallId, id: BidId)
    requires Inv(s) && id !in s.drawn
    ensures Inv(s.(drawn := s.drawn[id := c]))
  {
    var t := s.(drawn := s.drawn[id := c]);
    forall k | 0 <= k < |t.log| ensures EntryOk(t, k) {
      assert EntryOk(s, k);
    }
  }

  lemma IssueInsertKeepsInv(s: State, c: CallId, id: BidId)
    requires Inv(s) && Ready(s, c) && s.calls[c].pc.Inserting? && id !in s.drawn
    ensures Inv(IssueInsert(s, c, id))
  {
    var t := s.(drawn := s.drawn[id := c]);
    DrawingKeepsInv(s, c, id);
    GotoKeepsInv(t, c, IssueInsert(s, c, id).calls[c].pc);
  }

  lemma FinishInsertKeepsInv(s: State, c: CallId)
    requires Inv(s) && Ready(s, c) && s.calls[c].pc.InsertWaiting?
    ensures Inv(FinishInsert(s, c))
  {
    var t := FinishInsert(s, c);
    assert CallOk(s.catalog, s.log, s.clock, s.drawn, c, s.calls[c]) && Protected(s.auctions, s.calls[c]);
    if t.calls[c].pc.Closing? {
      GotoKeepsInv(s, c, Closing(Duplicate));
    } else {
      LocksKept(s.locks, s.calls, c, t.calls[c]);
      ReservedGained(s.reserved, s.calls, c, t.calls[c]);
      ConnectionsKept(s.connections, s.calls, c, t.calls[c]);
      FrameStep(s, c, t.calls[c], t);
    }
  }

  lemma IssueUpdateKeepsInv(s: State, c: CallId)
    requires Inv(s) && Ready(s, c) && s.calls[c].pc.Updating?
    ensures Inv(IssueUpdate(s, c))
  {
    var call := s.calls[c];
    var pc := IssueUpdate(s, c).calls[c].pc;
    assert CallOk(s.catalog, s.log, s.clock, s.drawn, c, call) && Protected(s.auctions, call);
    if call.strategy.Optimistic? {
      var a := call.command.auction;
      assert RowIsLatest(s.catalog[a], History(s.log, a), s.auctions[a]);
      GotoKeepsInv(s, c, pc);
    } else {
      LockingKeepsInv(s, c, pc);
    }
  }

  lemma FinishUpdateKeepsInv(s: State, c: CallId)
    requires Inv(s) && Ready(s, c) && s.calls[c].pc.UpdateWaiting?
    ensures Inv(FinishUpdate(s, c))
  {
    var call := s.calls[c];
    var pc := FinishUpdate(s, c).calls[c].pc;
    assert CallOk(s.catalog, s.log, s.clock, s.drawn, c, call);
    if pc.Committing? {
      LockingKeepsInv(s, c, pc);
    } else {
      GotoKeepsInv(s, c, pc);
    }
  }

  /** Whatever the exit, the call left owns nothing that the others' claims would miss. */
  lemma CloseKeepsResources(s: State, c: CallId)
    requires Inv(s) && c in s.calls && s.calls[c].pc.Closing?
    ensures var t := Close(s, c);
            LocksOk(t.locks, t.calls) && ReservedOk(t.reserved, t.calls) && ConnectionsOk(t.connections, t.calls)
  {
    var call := Close(s, c).calls[c];
    assert !HoldsConnection(call.pc);
    LocksReleased(s.locks, s.calls, c, call);
    ReservedReleased(s.reserved, s.calls, c, call);
    ConnectionsChanged(s.connections, s.calls, c, call);
  }

  lemma CloseKeepsInv(s: State, c: CallId)
    requires Inv(s) && Ready(s, c) && s.calls[c].pc.Closing?
    ensures Inv(Close(s, c))
  {
    var t := Close(s, c);
    assert CallOk(s.catalog, s.log, s.clock, s.drawn, c, s.calls[c]);
    CloseKeepsResources(s, c);
    FrameStep(s, c, t.calls[c], t);
  }

  lemma AbortedKeepsInv(s: State, c: CallId, fault: Fault)
    requires Inv(s) && c in s.calls && !Finished(s.calls[c].pc) && !s.calls[c].pc.Closing?
    ensures Inv(Aborted(s, c, fault))
  {
    GotoKeepsInv(s, c, Aborted(s, c, fault).calls[c].pc);
  }

  // ----- The commit

  /** The row a committing call leaves carries its bid and passes every constraint. */
  lemma PendingRowIsValid(s: State, c: CallId)
    requires Inv(s) && c in s.calls && s.calls[c].pc.Committing?
    ensures var pc := s.calls[c].pc; var a := s.calls[c].command.auction;
            a in s.auctions && Carries(pc.next, pc.bid) && Fresh(pc.next) == s.catalog[a] && ValidAuction(pc.next)
  {
    var call := s.calls[c];
    var a := call.command.auction;
    assert CallOk(s.catalog, s.log, s.clock, s.drawn, c, call) && Protected(s.auctions, call);
    assert RowIsLatest(s.catalog[a], History(s.log, a), s.auctions[a]);
    AcceptanceMeans(call.pc.row, call.pc.bid.id, call.command.amount, call.pc.now);
    assert s.auctions[a].id == s.catalog[a].id == a;
  }

  lemma CommitKeepsRows(s: State, c: CallId)
    requires Inv(s) && c in s.calls && s.calls[c].pc.Committing?
    ensures RowsOk(CommitBid(s, c))
  {
    var t := CommitBid(s, c);
    var e := t.log[|s.log|];
    PendingRowIsValid(s, c);
    forall a | a in t.auctions ensures RowIsLatest(t.catalog[a], History(t.log, a), t.auctions[a]) {
      HistoryOfAppend(s.log, e, a);
      assert RowIsLatest(s.catalog[a], History(s.log, a), s.auctions[a]);
    }
  }

  lemma CommitKeepsEntry(s: State, c: CallId, k: nat)
    requires Inv(s) && c in s.calls && s.calls[c].pc.Committing? && k < |s.log|
    ensures EntryOk(CommitBid(s, c), k)
  {
    assert CommitBid(s, c).log[..k] == s.log[..k];
    assert EntryOk(s, k);
  }

  lemma CommitMakesEntry(s: State, c: CallId)
    requires Inv(s) && c in s.calls && s.calls[c].pc.Committing?
    ensures EntryOk(CommitBid(s, c), |s.log|)
  {
    assert CommitBid(s, c).log[..|s.log|] == s.log;
    assert CallOk(s.catalog, s.log, s.clock, s.drawn, c, s.calls[c]);
  }

  /** The request id of a committing call is not in the log yet. */
  lemma CommitKeepsRequestsDistinct(s: State, c: CallId)
    requires Inv(s) && c in s.calls && s.calls[c].pc.Committing?
    ensures var log := CommitBid(s, c).log;
            forall i, j | 0 <= i < j < |log| :: log[i].bid.request != log[j].bid.request
  {
    assert CallOk(s.catalog, s.log, s.clock, s.drawn, c, s.calls[c]);
    FindCommitFinds(s.log, s.calls[c].command.request);
  }

  lemma CommitKeepsLog(s: State, c: CallId)
    requires Inv(s) && c in s.calls && s.calls[c].pc.Committing?
    ensures LogOk(CommitBid(s, c))
  {
    var t := CommitBid(s, c);
    forall k | 0 <= k < |t.log| ensures EntryOk(t, k) {
      if k < |s.log| {
        CommitKeepsEntry(s, c, k);
      } else {
        CommitMakesEntry(s, c);
      }
    }
    CommitKeepsRequestsDistinct(s, c);
  }

  lemma CommitKeepsOthers(s: State, c: CallId, d: CallId)
    requires Inv(s) && c in s.calls && s.calls[c].pc.Committing?
    requires d in s.calls && d != c
    ensures var t := CommitBid(s, c);
            CallOk(t.catalog, t.log, t.clock, t.drawn, d, t.calls[d]) && Protected(t.auctions, t.calls[d])
  {
    var t := CommitBid(s, c);
    var e := t.log[|s.log|];
    var call := s.calls[d];
    assert CallOk(s.catalog, s.log, s.clock, s.drawn, d, call) && Protected(s.auctions, call);
    assert CallOk(s.catalog, s.log, s.clock, s.drawn, c, s.calls[c]);
    if call.pc.Timing? || call.pc.Retiming? {
      RecordedGrows(s.log, e, call.pc.row);
    } else if call.pc.Rechecking? || call.pc.Inserting? || call.pc.InsertWaiting? || call.pc.Updating?
              || call.pc.UpdateWaiting? || call.pc.Committing? {
      RecordedByGrows(s.log, e, call.pc.row, call.pc.now);
    }
    FindOfAppend(s.log, e, call.command.request);
    assert MustReserve(call) ==> call.command.request != s.calls[c].command.request;
    assert MustLock(call) ==> call.command.auction != s.calls[c].command.auction;
  }

  lemma CommitKeepsCalls(s: State, c: CallId)
    requires Inv(s) && c in s.calls && s.calls[c].pc.Committing?
    ensures CallsOk(CommitBid(s, c))
  {
    var t := CommitBid(s, c);
    forall d | d in t.calls
      ensures CallOk(t.catalog, t.log, t.clock, t.drawn, d, t.calls[d]) && Protected(t.auctions, t.calls[d])
    {
      if d != c {
        CommitKeepsOthers(s, c, d);
      } else {
        assert CallOk(s.catalog, s.log, s.clock, s.drawn, c, s.calls[c]);
      }
    }
  }

  lemma CommitKeepsInv(s: State, c: CallId)
    requires Inv(s) && c in s.calls && s.calls[c].pc.Committing?
    ensures Inv(CommitBid(s, c))
  {
    var call := CommitBid(s, c).calls[c];
    CommitKeepsRows(s, c);
    CommitKeepsLog(s, c);
    CommitKeepsCalls(s, c);
    LocksReleased(s.locks, s.calls, c, call);
    ReservedReleased(s.reserved, s.calls, c, call);
    ConnectionsChanged(s.connections, s.calls, c, call);
  }

  // ----- All steps, all runs

  lemma ExecuteKeepsInv(s: State, c: CallId, id: BidId)
    requires Inv(s) && Ready(s, c)
    requires s.calls[c].pc.Inserting? ==> id !in s.drawn
    ensures Inv(Execute(s, c, id))
  {
    match s.calls[c].pc
    case Connecting => ConnectKeepsInv(s, c);
    case Reconnecting(_) => ConnectKeepsInv(s, c);
    case Lookup => LookUpRequestKeepsInv(s, c);
    case Reading => ReadAuctionKeepsInv(s, c);
    case Timing(_) => ReadClockKeepsInv(s, c);
    case Rechecking(_, _) => RecheckKeepsInv(s, c);
    case Inserting(_, _) => IssueInsertKeepsInv(s, c, id);
    case InsertWaiting(_, _, _) => FinishInsertKeepsInv(s, c);
    case Updating(_, _, _) => IssueUpdateKeepsInv(s, c);
    case UpdateWaiting(_, _, _, _) => FinishUpdateKeepsInv(s, c);
    case Committing(_, _, _, _, _) => CommitKeepsInv(s, c);
    case Closing(_) => CloseKeepsInv(s, c);
    case Relooking(_) => LookUpAgainKeepsInv(s, c);
    case Rereading => ReadAgainKeepsInv(s, c);
    case Retiming(_) => ReadClockAgainKeepsInv(s, c);
  }

  lemma StepKeepsInv(s: State, action: Action)
    requires Inv(s) && Enabled(s, action)
    ensures Inv(Perform(s, action))
  {
    match action
    case Begin(c, strategy, command) => StartedKeepsInv(s, c, strategy, command);
    case Tick(now) => TickKeepsInv(s, now);
    case Statement(c, id) => ExecuteKeepsInv(s, c, id);
    case Abort(c, fault) => AbortedKeepsInv(s, c, fault);
  }

  /** The base invariant holds in every state of every run, whatever mix of strategies it has. */
  lemma {:induction false} RunKeepsInv(run: Run, i: nat)
    requires IsRun(run) && i < |run.states|
    ensures Inv(run.states[i])
  {
    if i == 0 {
    } else {
      RunKeepsInv(run, i - 1);
      assert Follows(run, i - 1);
      StepKeepsInv(run.states[i - 1], run.actions[i - 1]);
    }
  }
}
