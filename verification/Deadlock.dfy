/**
 Deadlocks. Pessimistic calls take a connection, then the row lock, then the index entry; the other strategies take the
 row lock last. A circle of waits needs a pessimistic call whose insert waits for the index entry of a call of another
 kind with the same request id; without such a pair some call can always step.
 */
module Deadlock {
  import opened Models
  import opened Transactions
  import opened BaseInvariant
  import opened Preservation

  ghost predicate AllPessimistic(s: State) {
    forall c | c in s.calls :: s.calls[c].strategy.Pessimistic?
  }

  ghost predicate NonePessimistic(s: State) {
    forall c | c in s.calls :: !s.calls[c].strategy.Pessimistic?
  }

  predicate Unfinished(s: State, c: CallId) {
    c in s.calls && !Finished(s.calls[c].pc)
  }

  /** Call c's statement waits for a connection of an exhausted pool, a row lock or an index entry that call d owns. */
  ghost predicate WaitsForOwner(s: State, c: CallId, d: CallId) {
    && Unfinished(s, c) && d != c
    && var call := s.calls[c];
       var a := call.command.auction;
       match call.pc
       case Connecting => |s.connections| >= s.poolSize && d in s.connections
       case Reconnecting(_) => |s.connections| >= s.poolSize && d in s.connections
       case Reading => call.strategy.Pessimistic? && a in s.auctions && a in s.locks && s.locks[a] == d
       case InsertWaiting(_, _, _) => call.command.request in s.reserved && s.reserved[call.command.request] == d
       case Updating(_, _, _) => !call.strategy.Optimistic? && a in s.locks && s.locks[a] == d
       case UpdateWaiting(_, _, _, _) => a in s.locks && s.locks[a] == d
       case _ => false
  }

  predicate OwnsEntry(s: State, d: CallId) {
    && d in s.calls && s.calls[d].command.request in s.reserved
    && s.reserved[s.calls[d].command.request] == d
  }

  /**
   Waits of the foreign key check of an insert, whose key-share lock on the auction row conflicts with FOR UPDATE
   alone. The steps of a run do not have them; counting them here only makes the theorems below stronger. An insert
   that has its entry may wait for a pessimistic owner of the row, and FOR UPDATE for a call of another kind that has
   inserted.
   */
  ghost predicate WaitsForKey(s: State, c: CallId, d: CallId) {
    && Unfinished(s, c) && d != c && d in s.calls
    && s.calls[c].command.auction == s.calls[d].command.auction
    && var a := s.calls[c].command.auction;
       || (s.calls[c].pc.Updating? && s.calls[d].strategy.Pessimistic? && a in s.locks && s.locks[a] == d)
       || (s.calls[c].pc.Reading? && s.calls[c].strategy.Pessimistic?
           && !s.calls[d].strategy.Pessimistic? && OwnsEntry(s, d))
  }

  ghost predicate WaitsFor(s: State, c: CallId, d: CallId) {
    WaitsForOwner(s, c, d) || WaitsForKey(s, c, d)
  }

  /** The two locking orders meet: a pessimistic insert waits for a call of another kind with its own request id. */
  ghost predicate Crosses(s: State, c: CallId, d: CallId) {
    && WaitsFor(s, c, d) && s.calls[c].strategy.Pessimistic? && s.calls[c].pc.InsertWaiting?
    && d in s.calls && !s.calls[d].strategy.Pessimistic? && s.calls[d].command.request == s.calls[c].command.request
  }

  /** No pessimistic call shares its request id with a call of another kind. */
  ghost predicate SeparateRequests(s: State) {
    forall c, d | c in s.calls && d in s.calls && s.calls[c].strategy.Pessimistic?
        && !s.calls[d].strategy.Pessimistic? ::
      s.calls[c].command.request != s.calls[d].command.request
  }

  lemma SomeMember(q: set<int>) returns (x: int)
    requires |q| > 0
    ensures x in q
  {
    if forall y :: y !in q {
      assert false;
    }
    x :| x in q;
  }

  /** A call that cannot step waits for another call. */
  lemma BlockedWaits(s: State, c: CallId) returns (d: CallId)
    requires Inv(s) && Unfinished(s, c) && !Ready(s, c)
    ensures WaitsFor(s, c, d)
  {
    var call := s.calls[c];
    assert CallOk(s.catalog, s.log, s.clock, s.drawn, c, call) && Protected(s.auctions, call);
    if call.pc.Connecting? || call.pc.Reconnecting? {
      d := SomeMember(s.connections);
    } else if call.pc.InsertWaiting? {
      d := s.reserved[call.command.request];
    } else {
      d := s.locks[call.command.auction];
    }
  }

  /** How far a call is from its last possible wait. */
  function Rank(call: Call): nat {
    match call.pc
    case Connecting => 5
    case Reconnecting(_) => 5
    case InsertWaiting(_, _, _) => if call.strategy.Pessimistic? then 1 else 4
    case Reading => if call.strategy.Pessimistic? then 3 else 0
    case Updating(_, _, _) => if call.strategy.Pessimistic? then 0 else 2
    case UpdateWaiting(_, _, _, _) => 2
    case _ => 0
  }

  /** Unless the orders meet, waiting is always for a call closer to its last wait. */
  lemma WaitingLowersRank(s: State, c: CallId, d: CallId)
    requires Inv(s) && WaitsFor(s, c, d) && !Crosses(s, c, d)
    ensures Unfinished(s, d) && Rank(s.calls[d]) < Rank(s.calls[c])
  {
    assert CallOk(s.catalog, s.log, s.clock, s.drawn, d, s.calls[d]);
    assert CallOk(s.catalog, s.log, s.clock, s.drawn, c, s.calls[c]);
  }

  ghost predicate WaitingPath(s: State, path: seq<CallId>) {
    forall k | 0 <= k < |path| - 1 :: WaitsFor(s, path[k], path[k + 1])
  }

  /** The orders meet on some edge of the path. */
  ghost predicate PathCrosses(s: State, path: seq<CallId>) {
    exists k :: 0 <= k < |path| - 1 && Crosses(s, path[k], path[k + 1])
  }

  lemma {:induction false} RanksFall(s: State, path: seq<CallId>, k: nat)
    requires Inv(s) && WaitingPath(s, path) && !PathCrosses(s, path)
    requires 0 < k < |path|
    ensures path[0] in s.calls && path[k] in s.calls && Rank(s.calls[path[k]]) < Rank(s.calls[path[0]])
  {
    assert WaitsFor(s, path[k - 1], path[k]) && !Crosses(s, path[k - 1], path[k]);
    WaitingLowersRank(s, path[k - 1], path[k]);
    if k == 1 {
    } else {
      RanksFall(s, path, k - 1);
    }
  }

  /**
   In every reachable state of any mix of strategies, a chain of waits that returns to its start passes through a
   pessimistic insert that waits for a call of another kind with the same request id.
   */
  lemma CirclesCross(run: Run, i: nat, path: seq<CallId>)
    requires IsRun(run) && i < |run.states|
    requires WaitingPath(run.states[i], path) && |path| > 1 && path[0] == path[|path| - 1]
    ensures PathCrosses(run.states[i], path)
  {
    RunKeepsInv(run, i);
    if !PathCrosses(run.states[i], path) {
      RanksFall(run.states[i], path, |path| - 1);
      assert false;
    }
  }

  /** While no pessimistic call shares its request id with a call of another kind, no chain of waits is closed. */
  lemma SeparateRequestsAreAcyclic(run: Run, i: nat, path: seq<CallId>)
    requires IsRun(run) && i < |run.states| && SeparateRequests(run.states[i])
    requires WaitingPath(run.states[i], path) && |path| > 1
    ensures path[0] != path[|path| - 1]
  {
    if path[0] == path[|path| - 1] {
      CirclesCross(run, i, path);
      assert false;
    }
  }

  /** In particular in every reachable state of a run with one locking order. */
  lemma WaitsForIsAcyclic(run: Run, i: nat, path: seq<CallId>)
    requires IsRun(run) && i < |run.states|
    requires AllPessimistic(run.states[i]) || NonePessimistic(run.states[i])
    requires WaitingPath(run.states[i], path) && |path| > 1
    ensures path[0] != path[|path| - 1]
  {
    SeparateRequestsAreAcyclic(run, i, path);
  }

  /** The call has an enabled statement and waits for nobody, foreign key checks included. */
  ghost predicate Free(s: State, d: CallId) {
    Unfinished(s, d) && Ready(s, d) && forall e :: !WaitsFor(s, d, e)
  }

  /** Behind every unfinished call there is a free one, or a place where the orders meet. */
  lemma {:induction false} FreeCallBehind(s: State, c: CallId) returns (d: CallId, e: CallId)
    requires Inv(s) && Unfinished(s, c)
    ensures Free(s, d) || Crosses(s, d, e)
    decreases Rank(s.calls[c])
  {
    d, e := c, c;
    if Free(s, c) {
    } else {
      if Ready(s, c) {
        e :| WaitsFor(s, c, e);
      } else {
        e := BlockedWaits(s, c);
      }
      if !Crosses(s, c, e) {
        WaitingLowersRank(s, c, e);
        d, e := FreeCallBehind(s, e);
      }
    }
  }

  /** Identifiers never run out. */
  lemma {:induction false} IdsAreBounded(ids: set<BidId>) returns (bound: BidId)
    ensures forall id | id in ids :: id < bound
  {
    if ids == {} {
      bound := 0;
    } else {
      var id := SomeMember(ids);
      bound := IdsAreBounded(ids - {id});
      bound := if bound > id then bound else id + 1;
      assert forall other | other in ids :: other == id || other in ids - {id};
    }
  }

  /**
   While any call is unfinished, some unfinished call waits for nobody and has an enabled statement, so that no
   timeout is needed for progress, or else a pessimistic insert waits for a call of another kind with its request id.
   */
  lemma SomeCallCanStepOrCrosses(run: Run, i: nat, c: CallId) returns (d: CallId, e: CallId, id: BidId)
    requires IsRun(run) && i < |run.states| && Unfinished(run.states[i], c)
    ensures (Free(run.states[i], d) && Enabled(run.states[i], Statement(d, id))) || Crosses(run.states[i], d, e)
  {
    RunKeepsInv(run, i);
    d, e := FreeCallBehind(run.states[i], c);
    id := IdsAreBounded(run.states[i].drawn.Keys);
  }

  /** While no pessimistic call shares its request id with a call of another kind, some unfinished call can step. */
  lemma SeparateRequestsCanStep(run: Run, i: nat, c: CallId) returns (d: CallId, id: BidId)
    requires IsRun(run) && i < |run.states| && SeparateRequests(run.states[i]) && Unfinished(run.states[i], c)
    ensures Free(run.states[i], d) && Enabled(run.states[i], Statement(d, id))
  {
    var e;
    d, e, id := SomeCallCanStepOrCrosses(run, i, c);
  }

  /** In particular in every reachable state of a run with one locking order. */
  lemma SomeCallCanStep(run: Run, i: nat, c: CallId) returns (d: CallId, id: BidId)
    requires IsRun(run) && i < |run.states|
    requires AllPessimistic(run.states[i]) || NonePessimistic(run.states[i])
    requires Unfinished(run.states[i], c)
    ensures Free(run.states[i], d) && Enabled(run.states[i], Statement(d, id))
  {
    d, id := SeparateRequestsCanStep(run, i, c);
  }
}
