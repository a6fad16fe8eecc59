/** What only grows along a run: the log, the clock, the set of calls; and what a step leaves alone. */
module Progress {
  import opened Wrappers
  import opened Models
  import opened Transactions
  import opened BaseInvariant
  import opened Preservation

  /** Calls keep their strategy and command, and a finished call keeps its result. */
  ghost predicate CallsGrow(before: map<CallId, Call>, after: map<CallId, Call>) {
    forall c | c in before ::
      && c in after
      && after[c].strategy == before[c].strategy && after[c].command == before[c].command
      && before[c].attempt <= after[c].attempt && before[c].misses <= after[c].misses
      && (Finished(before[c].pc) ==> after[c] == before[c])
  }

  ghost predicate Grows(s: State, t: State) {
    && t.catalog == s.catalog && t.poolSize == s.poolSize
    && s.log <= t.log && s.clock <= t.clock
    && CallsGrow(s.calls, t.calls)
  }

  lemma StepGrows(s: State, action: Action)
    requires Enabled(s, action)
    ensures Grows(s, Perform(s, action))
  {
  }

  lemma {:induction false} RunGrows(run: Run, i: nat, j: nat)
    requires IsRun(run) && i <= j < |run.states|
    ensures Grows(run.states[i], run.states[j])
    decreases j
  {
    if i == j {
    } else {
      RunGrows(run, i, j - 1);
      assert Follows(run, j - 1);
      StepGrows(run.states[j - 1], run.actions[j - 1]);
    }
  }

  /** The auction a step may write to, if any. */
  function Target(s: State, action: Action): Option<AuctionId> {
    match action
    case Statement(c, _) => if c in s.calls then Some(s.calls[c].command.auction) else None
    case _ => None
  }

  /** The other auction's row, bids and lock are the same. */
  ghost predicate Untouched(s: State, t: State, other: AuctionId) {
    && (other in t.auctions <==> other in s.auctions)
    && (other in s.auctions ==> t.auctions[other] == s.auctions[other])
    && History(t.log, other) == History(s.log, other)
    && (other in t.locks <==> other in s.locks)
    && (other in s.locks ==> t.locks[other] == s.locks[other])
  }

  lemma StatementIsIsolated(s: State, c: CallId, id: BidId, other: AuctionId)
    requires Inv(s) && Ready(s, c) && s.calls[c].command.auction != other
    ensures Untouched(s, Execute(s, c, id), other)
  {
    if s.calls[c].pc.Committing? {
      CommitIsIsolated(s, c, other);
    }
  }

  /** A step changes no other auction's row, bids or lock. */
  lemma StepIsIsolated(s: State, action: Action, other: AuctionId)
    requires Inv(s) && Enabled(s, action)
    requires Target(s, action) != Some(other)
    ensures Untouched(s, Perform(s, action), other)
  {
    if action.Statement? {
      StatementIsIsolated(s, action.call, action.id, other);
    }
  }

  lemma CommitIsIsolated(s: State, c: CallId, other: AuctionId)
    requires Inv(s) && c in s.calls && s.calls[c].pc.Committing?
    requires other != s.calls[c].command.auction
    ensures var t := CommitBid(s, c);
            && (other in t.auctions <==> other in s.auctions)
            && (other in s.auctions ==> t.auctions[other] == s.auctions[other])
            && History(t.log, other) == History(s.log, other)
  {
    var pc := s.calls[c].pc;
    assert CallOk(s.catalog, s.log, s.clock, s.drawn, c, s.calls[c]);
    HistoryOfAppend(s.log, Commit(pc.bid, c, pc.row, pc.now, pc.guardedAt), other);
  }

  ghost predicate HoldsNothing(s: State, c: CallId) {
    && c !in s.connections
    && (forall a | a in s.locks :: s.locks[a] != c)
    && (forall r | r in s.reserved :: s.reserved[r] != c)
  }

  /**
   Leaving a block that wrote nothing that lasts, whatever the exit (an answer, a missed update, a unique violation, a
   retry or an error), changes no table, and the call then owns no connection, no row lock and no index entry.
   */
  lemma ClosedBlockHoldsNothing(s: State, c: CallId)
    requires Inv(s) && c in s.calls && s.calls[c].pc.Closing?
    ensures var t := Close(s, c); t.auctions == s.auctions && t.log == s.log && HoldsNothing(t, c)
  {
    CloseKeepsResources(s, c);
  }

  /** An aborted call changes no table, and once its block is closed it owns nothing and its error is final. */
  lemma AbortHasNoEffect(s: State, c: CallId, fault: Fault)
    requires Inv(s) && Enabled(s, Abort(c, fault))
    ensures var t := Perform(s, Abort(c, fault));
            && t.auctions == s.auctions && t.log == s.log
            && (t.calls[c].pc.Closing? || (t.calls[c].pc.Raised? && HoldsNothing(t, c)))
            && (t.calls[c].pc.Closing? ==>
                  && Ready(t, c)
                  && var u := Close(t, c);
                     && u.auctions == s.auctions && u.log == s.log
                     && u.calls[c].pc == Raised(ErrorFor(s.calls[c], fault)) && HoldsNothing(u, c))
  {
    AbortedKeepsInv(s, c, fault);
    var t := Aborted(s, c, fault);
    if t.calls[c].pc.Closing? {
      ClosedBlockHoldsNothing(t, c);
    } else {
      FinishedHoldsNothing(t, c);
    }
  }

  /** A finished call owns no lock, no index entry and no connection. */
  lemma FinishedHoldsNothing(s: State, c: CallId)
    requires Inv(s) && c in s.calls && Finished(s.calls[c].pc)
    ensures HoldsNothing(s, c)
  {
  }

  // ----- The connection pool

  lemma StatementConnections(s: State, c: CallId, id: BidId)
    requires Ready(s, c)
    ensures Execute(s, c, id).connections ==
            if s.calls[c].pc.Connecting? || s.calls[c].pc.Reconnecting? then s.connections + {c}
            else if Ends(s.calls[c].pc) then s.connections - {c}
            else s.connections
  {
  }

  lemma OneMember<T>(q: set<T>, x: T)
    ensures |q - {x}| <= |q| && |q + {x}| <= |q| + 1
  {
    if x in q {
      assert q + {x} == q && q == (q - {x}) + {x};
    } else {
      assert q - {x} == q;
    }
  }

  lemma StatementKeepsPool(s: State, c: CallId, id: BidId)
    requires Ready(s, c) && |s.connections| <= s.poolSize
    ensures |Execute(s, c, id).connections| <= Execute(s, c, id).poolSize
  {
    StatementConnections(s, c, id);
    OneMember(s.connections, c);
  }

  lemma StepKeepsPool(s: State, action: Action)
    requires Enabled(s, action) && |s.connections| <= s.poolSize
    ensures |Perform(s, action).connections| <= Perform(s, action).poolSize
  {
    if action.Statement? {
      StatementKeepsPool(s, action.call, action.id);
    }
  }

  /** In no reachable state are more connections taken than the pool has, and a call at work holds one. */
  lemma {:induction false} PoolIsNeverExceeded(run: Run, i: nat)
    requires IsRun(run) && i < |run.states|
    ensures |run.states[i].connections| <= run.states[i].poolSize
    ensures forall c | c in run.states[i].calls :: c in run.states[i].connections <==>
            HoldsConnection(run.states[i].calls[c].pc)
  {
    RunKeepsInv(run, i);
    if i == 0 {
    } else {
      PoolIsNeverExceeded(run, i - 1);
      assert Follows(run, i - 1);
      StepKeepsPool(run.states[i - 1], run.actions[i - 1]);
    }
  }
}
