/**
 The three place_bid methods in their own control flow, over the Database object: local values decide the branches, and
 the retry loop and the exception handlers are those of the strategies. Each is proved to be a run of its call in which
 other calls may step between any two statements, and to return what that run's call reports.
 */
module Strategies {
  import opened Wrappers
  import opened Models
  import opened Rules
  import opened Transactions
  import opened BaseInvariant
  import opened Outcomes
  import opened Lookups
  import opened Rejections
  import opened Retries
  import opened Answers
  import opened Faults
  import opened DatabaseObject

  // ----- Statements with their waits
  // Each helper lets other calls step, then makes one statement of call c, or ends the call by a fault.

  /** The call is as it was, but for its program counter: raised, from outside, if the helper failed. */
  ghost predicate MovedTo<T>(calls: map<CallId, Call>, c: CallId, call: Call, r: Result<T, Error>, pc: Pc) {
    && c in calls && calls[c] == call.(pc := if r.Ok? then pc else Raised(r.error))
    && (r.Err? ==> FromOutside(r.error))
  }

  method OpenConnection(db: Database, c: CallId, ghost call: Call) returns (r: Result<(), Error>)
    requires db.Valid() && c in db.calls && db.calls[c] == call && (call.pc.Connecting? || call.pc.Reconnecting?)
    modifies db
    ensures db.Valid() && Continues(old(db.run), db.run)
    ensures MovedTo(db.calls, c, call, r, if call.pc.Connecting? then Lookup else Relooking(call.pc.purpose))
  {
    var _ :- db.Await(c);
    db.OpenConnection(c);
    r := Ok(());
  }

  /** Where a look at the request id leads. */
  ghost function AfterLook(call: Call, existing: Option<Bid>): Pc {
    match call.pc
    case Relooking(purpose) =>
      if existing.Some? then Closing(Return(ReplayOrReject(existing.value, call.command, 1, 0)))
      else if purpose.Classify? then Rereading else Closing(Fail(UnresolvedDuplicate))
    case Rechecking(row, now) =>
      if existing.None? then Decide(call, row, now)
      else Closing(Return(ReplayOrReject(existing.value, call.command, call.attempt, call.attempt - 1)))
    case _ =>
      if existing.None? then Reading
      else Closing(Return(ReplayOrReject(existing.value, call.command, call.attempt, call.attempt - 1)))
  }

  method ExistingBidOf(db: Database, c: CallId, ghost call: Call) returns (r: Result<Option<Bid>, Error>)
    requires db.Valid() && c in db.calls && db.calls[c] == call
    requires (call.pc.Lookup? || call.pc.Rechecking? || call.pc.Relooking?)
    modifies db
    ensures db.Valid() && Continues(old(db.run), db.run)
    ensures MovedTo(db.calls, c, call, r, AfterLook(call, if r.Ok? then r.value else None))
    ensures r.Ok? ==> r.value == ExistingBid(db.log, call.command.request)
  {
    var _ :- db.Await(c);
    var existing;
    if db.calls[c].pc.Lookup? {
      existing := db.FindRequest(c);
    } else if db.calls[c].pc.Rechecking? {
      existing := db.FindRequestLocked(c);
    } else {
      existing := db.FindRequestAgain(c);
    }
    r := Ok(existing);
  }

  method ReadAuctionOf(db: Database, c: CallId, ghost call: Call) returns (r: Result<Option<Auction>, Error>)
    requires db.Valid() && c in db.calls && db.calls[c] == call && (call.pc.Reading? || call.pc.Rereading?)
    modifies db
    ensures db.Valid() && Continues(old(db.run), db.run)
    ensures MovedTo(db.calls, c, call, r,
                    if r.Ok? && r.value.Some?
                    then if call.pc.Reading? then Timing(r.value.value) else Retiming(r.value.value)
                    else
                      var conflicts := if call.pc.Reading? then 0 else call.attempt;
                      Closing(Return(Rejected(AuctionNotFound, None, call.attempt, conflicts))))
  {
    var _ :- db.Await(c);
    var auction;
    if db.calls[c].pc.Reading? {
      auction := db.SelectAuction(c);
    } else {
      auction := db.SelectAuctionAgain(c);
    }
    r := Ok(auction);
  }

  method TimeOf(db: Database, c: CallId, ghost call: Call) returns (r: Result<Instant, Error>)
    requires db.Valid() && c in db.calls && db.calls[c] == call && (call.pc.Timing? || call.pc.Retiming?)
    modifies db
    ensures db.Valid() && Continues(old(db.run), db.run)
    ensures MovedTo(db.calls, c, call, r,
                    var now := if r.Ok? then r.value else 0;
                    if call.pc.Retiming? then DecideAfterMiss(call, call.pc.row, now)
                    else if call.strategy.Pessimistic? then Rechecking(call.pc.row, now)
                    else Decide(call, call.pc.row, now))
  {
    var _ :- db.Await(c);
    var now;
    if db.calls[c].pc.Timing? {
      now := db.DatabaseTime(c);
    } else {
      now := db.DatabaseTimeAgain(c);
    }
    r := Ok(now);
  }

  /** Insert the bid; None if its request id is taken. */
  method InsertBidOf(db: Database, c: CallId, ghost call: Call) returns (r: Result<Option<Bid>, Error>)
    requires db.Valid() && c in db.calls && db.calls[c] == call && call.pc.Inserting?
    modifies db
    ensures db.Valid() && Continues(old(db.run), db.run)
    ensures MovedTo(db.calls, c, call, r,
                    if r.Ok? && r.value.Some? then Updating(call.pc.row, call.pc.now, r.value.value)
                    else Closing(Duplicate))
    ensures r.Ok? && r.value.Some? ==>
              var bid := r.value.value;
              bid == TentativeBid(call.command, bid.id, call.pc.row.version + 1, bid.acceptedAt)
  {
    var _ :- db.Await(c);
    var id := db.DrawId();
    var bid := db.InsertBid(c, id);
    var _ :- db.Await(c);
    var entered := db.EnterIndex(c);
    r := Ok(if entered then Some(bid) else None);
  }

  /** Update the row under its lock and commit; for the two strategies whose update has no guard. */
  method UpdateAndCommit(db: Database, c: CallId, ghost call: Call) returns (r: Result<(), Error>)
    requires db.Valid() && c in db.calls && db.calls[c] == call && call.pc.Updating? && !call.strategy.Optimistic?
    modifies db
    ensures db.Valid() && Continues(old(db.run), db.run)
    ensures MovedTo(db.calls, c, call, r, Done(Accepted(call.pc.bid, call.attempt, call.attempt - 1)))
  {
    var _ :- db.Await(c);
    db.UpdateAuction(c);
    var _ :- db.Await(c);
    db.CommitWrites(c);
    r := Ok(());
  }

  /** The guard on the row found: it misses, or it passes and the update waits for the lock. */
  method FirstGuard(db: Database, c: CallId, ghost call: Call) returns (r: Result<bool, Error>, ghost after: Pc)
    requires db.Valid() && c in db.calls && db.calls[c] == call && call.pc.Updating? && call.strategy.Optimistic?
    modifies db
    ensures db.Valid() && Continues(old(db.run), db.run)
    ensures MovedTo(db.calls, c, call, r, after)
    ensures r.Ok? && r.value ==> after.UpdateWaiting? && after.bid == call.pc.bid && after.row == call.pc.row
    ensures r.Ok? && !r.value ==> after.Closing? && after.exit.Missed? && after.exit.miss.version == call.pc.row.version
  {
    after := call.pc;
    var _ :- db.Await(c);
    db.UpdateAuction(c);
    after := db.calls[c].pc;
    r := Ok(db.calls[c].pc.UpdateWaiting?);
  }

  /** The guard on the newest row, under the lock. */
  method SecondGuard(db: Database, c: CallId, ghost call: Call) returns (r: Result<bool, Error>, ghost after: Pc)
    requires db.Valid() && c in db.calls && db.calls[c] == call && call.pc.UpdateWaiting?
    modifies db
    ensures db.Valid() && Continues(old(db.run), db.run)
    ensures MovedTo(db.calls, c, call, r, after)
    ensures r.Ok? && r.value ==> after.Committing? && after.bid == call.pc.bid
    ensures r.Ok? && !r.value ==> after.Closing? && after.exit.Missed? && after.exit.miss.version == call.pc.row.version
  {
    after := call.pc;
    var _ :- db.Await(c);
    db.RecheckGuard(c);
    after := db.calls[c].pc;
    r := Ok(db.calls[c].pc.Committing?);
  }

  /** The guarded update: true if it found its row, whose lock is then held, false if it found none. */
  method GuardedUpdate(db: Database, c: CallId, ghost call: Call) returns (r: Result<bool, Error>, ghost after: Pc)
    requires db.Valid() && c in db.calls && db.calls[c] == call && call.pc.Updating? && call.strategy.Optimistic?
    modifies db
    ensures db.Valid() && Continues(old(db.run), db.run)
    ensures MovedTo(db.calls, c, call, r, after)
    ensures r.Ok? && r.value ==> after.Committing? && after.bid == call.pc.bid
    ensures r.Ok? && !r.value ==> after.Closing? && after.exit.Missed? && after.exit.miss.version == call.pc.row.version
  {
    r, after := FirstGuard(db, c, call);
    if r.Ok? && r.value {
      r, after := SecondGuard(db, c, call.(pc := after));
    }
  }

  method CommitBidOf(db: Database, c: CallId, ghost call: Call) returns (r: Result<(), Error>)
    requires db.Valid() && c in db.calls && db.calls[c] == call && call.pc.Committing?
    modifies db
    ensures db.Valid() && Continues(old(db.run), db.run)
    ensures MovedTo(db.calls, c, call, r, Done(Accepted(call.pc.bid, call.attempt, call.attempt - 1)))
  {
    var _ :- db.Await(c);
    db.CommitWrites(c);
    r := Ok(());
  }

  // ----- Calls

  /**
   What an outcome goes back to: for a reply, the committed bid with the request id, which has the call's own payload
   if it
   is replayed; for an acceptance, the bid with the call's payload; an auction that does not exist; the rule's verdict
   on a
   row the call read and a clock value it met afterwards. Only a verdict quotes a minimum, and the counts are those of
   the
   statement that gave the answer.
   */
  ghost predicate Explained(run: Run, c: CallId, command: Command, o: Outcome)
    requires run.states != []
  {
    && (IsReply(o) ==> ExistingBid(Last(run).log, command.request).Some?)
    && (o.Replayed? || o.Accepted? ==>
          && o.bid.request == command.request && o.bid.auction == command.auction
          && o.bid.bidder == Strip(command.bidder) && o.bid.amount == command.amount)
    && (o.Rejected? && o.reason.AuctionNotFound? ==> command.auction !in Last(run).catalog)
    && (o.Rejected? && RuleReason(o.reason) ==>
          Justified(run, |run.states| - 1, c, command.amount, (o.reason, o.minimum)))
    && (o.Rejected? ==>
          (o.minimum.Some? <==> o.reason in {AuctionNotStarted, AuctionClosed, BidTooLow}))
    && WasGiven(run, |run.states| - 1, c)
  }

  lemma ReplyIsExplained(run: Run, c: CallId, o: Outcome)
    requires IsRun(run) && c in Last(run).calls && Last(run).calls[c].pc == Done(o)
    ensures var command := Last(run).calls[c].command;
            && (IsReply(o) ==> ExistingBid(Last(run).log, command.request).Some?)
            && (o.Replayed? || o.Accepted? ==>
                  && o.bid.request == command.request && o.bid.auction == command.auction
                  && o.bid.bidder == Strip(command.bidder) && o.bid.amount == command.amount)
            && (o.Rejected? ==>
                  (o.minimum.Some? <==> o.reason in {AuctionNotStarted, AuctionClosed, BidTooLow}))
  {
    RepliesAreFaithful(run, |run.states| - 1, c);
    AcceptancesAreFaithful(run, |run.states| - 1, c);
    FindCommitFinds(Last(run).log, Last(run).calls[c].command.request);
  }

  lemma OutcomeIsExplained(run: Run, c: CallId, o: Outcome)
    requires IsRun(run) && c in Last(run).calls && Last(run).calls[c].pc == Done(o)
    ensures Explained(run, c, Last(run).calls[c].command, o)
  {
    var i := |run.states| - 1;
    ReplyIsExplained(run, c, o);
    if !IsReply(o) {
      NotFoundMeansUnknown(run, i, c);
    }
    if o.Rejected? && RuleReason(o.reason) {
      RejectionsAreJustified(run, i, c);
    }
    var j := AnswersAreCounted(run, i, c);
  }

  /**
   A result is explained: an outcome as above, an error by a fault that struck the call or by want of room for any
   bid.
   */
  ghost predicate ResultExplained(run: Run, c: CallId, command: Command, r: Result<Outcome, Error>)
    requires run.states != []
  {
    match r
    case Ok(o) => Explained(run, c, command, o)
    case Err(e) => FailureExplained(run, |run.states| - 1, c, e)
  }

  lemma ResultIsExplained(run: Run, c: CallId, r: Result<Outcome, Error>)
    requires IsRun(run) && c in Last(run).calls
    requires Last(run).calls[c].pc == match r case Ok(o) => Done(o) case Err(e) => Raised(e)
    ensures ResultExplained(run, c, Last(run).calls[c].command, r)
  {
    match r
    case Ok(o) => OutcomeIsExplained(run, c, o);
    case Err(_) => FailuresAreExplained(run, |run.states| - 1, c);
  }

  /** The call to place_bid is over, on its own command under its own strategy, with this result. */
  ghost predicate Completes(calls: map<CallId, Call>, c: CallId, strategy: Strategy, command: Command,
                            r: Result<Outcome, Error>) {
    && c in calls && calls[c].strategy == strategy && calls[c].command == command
    && calls[c].pc == match r case Ok(o) => Done(o) case Err(e) => Raised(e)
  }

  lemma CommittedBidStays(before: Run, after: Run, r: RequestId)
    requires IsRun(after) && before.states != [] && Continues(before, after)
    requires ExistingBid(Last(before).log, r).Some?
    ensures ExistingBid(Last(after).log, r) == ExistingBid(Last(before).log, r)
  {
    ExistingBidStays(after, |before.states| - 1, |after.states| - 1, r);
  }

  /** Look on a new connection for the bid that caused a unique violation. There always is one. */
  method FindDuplicate(db: Database, c: CallId, ghost call: Call) returns (r: Result<Option<Bid>, Error>)
    requires db.Valid() && c in db.calls && db.calls[c] == call && call.pc == Reconnecting(Resolve)
    modifies db
    ensures db.Valid() && Continues(old(db.run), db.run)
    ensures r.Ok? ==> r.value.Some? && r.value == ExistingBid(db.log, call.command.request)
    ensures MovedTo(db.calls, c, call, r,
                    AfterLook(call.(pc := Relooking(Resolve)), if r.Ok? then r.value else None))
  {
    var _ :- OpenConnection(db, c, call);
    r := ExistingBidOf(db, c, db.calls[c]);
    DuplicatesAlwaysResolve(db.run, |db.run.states| - 1, c);
  }

  /**
   After a unique violation: the answer is the reply to the committed bid, counted as one attempt. The branch that would
   raise for want of a bid is never taken.
   */
  method ResolveDuplicateRequest(db: Database, c: CallId, command: Command, ghost call: Call)
    returns (r: Result<Outcome, Error>)
    requires db.Valid() && c in db.calls && db.calls[c] == call
    requires call.pc == Reconnecting(Resolve) && call.command == command
    modifies db
    ensures db.Valid() && Continues(old(db.run), db.run)
    ensures Completes(db.calls, c, call.strategy, command, r)
    ensures r.Ok? ==>
              && ExistingBid(db.log, command.request).Some?
              && var b := ExistingBid(db.log, command.request).value;
                 r.value == if b.auction == command.auction && b.bidder == Strip(command.bidder)
                     && b.amount == command.amount
                            then Replayed(b, 1, 0) else Rejected(RequestIdReused, None, 1, 0)
    ensures r.Err? ==> FromOutside(r.error)
  {
    var existing :- FindDuplicate(db, c, call);
    if existing.None? {
      assert false;
    }
    ghost var looked := db.run;
    db.Leave(c);
    CommittedBidStays(looked, db.run, command.request);
    r := Ok(ReplayOrReject(existing.value, command, 1, 0));
  }

  /** Whether a call is settled before it writes, or the auction it has read accepts its bid. */
  datatype Examined = Settled(outcome: Outcome) | Acceptable(auction: Auction, now: Instant)

  ghost predicate AfterExamination(calls: map<CallId, Call>, c: CallId, call: Call, r: Result<Examined, Error>) {
    c in calls && calls[c] == call.(pc := match r
                                          case Err(e) => Raised(e)
                                          case Ok(Settled(o)) => Done(o)
                                          case Ok(Acceptable(auction, now)) => Inserting(auction, now))
  }

  /** What an examination has found: why the call is settled, or a row some commit left, which accepts the bid. */
  ghost predicate Finding(s: State, run: Run, c: CallId, command: Command, r: Result<Examined, Error>)
    requires run.states != []
  {
    match r
    case Err(e) => FailureExplained(run, |run.states| - 1, c, e)
    case Ok(Settled(o)) => Explained(run, c, command, o)
    case Ok(Acceptable(auction, now)) =>
      && SeenOk(s.catalog, s.log, command.auction, auction, now) && now <= s.clock
      && Accepts(auction, command.amount, now)
  }

  lemma ExaminationFinds(db: Database, c: CallId, call: Call, r: Result<Examined, Error>)
    requires db.Valid() && AfterExamination(db.calls, c, call, r)
    ensures Finding(db.Snapshot(), db.run, c, call.command, r)
    ensures r.Ok? && r.value.Acceptable? && call.strategy.Pessimistic? ==>
              var a := call.command.auction;
              && a in db.locks && db.locks[a] == c
              && a in db.auctions && db.auctions[a] == r.value.auction
  {
    match r
    case Err(_) => FailuresAreExplained(db.run, |db.run.states| - 1, c);
    case Ok(Settled(o)) => OutcomeIsExplained(db.run, c, o);
    case Ok(Acceptable(_, _)) =>
      db.ValidKeepsInv();
      var s := db.Snapshot();
      assert CallOk(s.catalog, s.log, s.clock, s.drawn, c, s.calls[c]) && Protected(s.auctions, s.calls[c]);
  }

  /** Evaluate the bid on the row and time read, and leave the block unless it is accepted. */
  method EvaluateOrLeave(db: Database, c: CallId, auction: Auction, now: Instant, attempt: int, ghost call: Call)
    returns (r: Result<Examined, Error>)
    requires db.Valid() && c in db.calls && call.attempt == attempt
    requires db.calls[c] == call.(pc := Decide(call, auction, now))
    modifies db
    ensures db.Valid() && Continues(old(db.run), db.run)
    ensures AfterExamination(db.calls, c, call, r)
  {
    var evaluation := EvaluateBid(auction, db.calls[c].command.amount, now);
    if evaluation.Err? {
      db.Leave(c);
      return Err(MoneyOverflow);
    }
    if !evaluation.value.accepted {
      db.Leave(c);
      return Ok(Settled(Rejected(evaluation.value.reason.value, Some(evaluation.value.minimum), attempt, 0)));
    }
    r := Ok(Acceptable(auction, now));
  }

  /** Look for the request id and read the auction. */
  method LookAndRead(db: Database, c: CallId, command: Command, attempt: int, ghost call: Call)
    returns (r: Result<Result<Auction, Outcome>, Error>)
    requires db.Valid() && c in db.calls && db.calls[c] == call && call.pc.Connecting?
    requires call.command == command && call.attempt == attempt
    modifies db
    ensures db.Valid() && Continues(old(db.run), db.run)
    ensures c in db.calls && db.calls[c] == call.(pc := match r
                                                        case Err(e) => Raised(e)
                                                        case Ok(Err(o)) => Done(o)
                                                        case Ok(Ok(auction)) => Timing(auction))
  {
    var _ :- OpenConnection(db, c, call);
    var existing :- ExistingBidOf(db, c, db.calls[c]);
    if existing.Some? {
      db.Leave(c);
      return Ok(Err(ReplayOrReject(existing.value, command, attempt, attempt - 1)));
    }
    var auction :- ReadAuctionOf(db, c, db.calls[c]);
    if auction.None? {
      db.Leave(c);
      return Ok(Err(Rejected(AuctionNotFound, None, attempt, 0)));
    }
    r := Ok(Ok(auction.value));
  }

  /** The look for the request id after a miss, on a new connection. */
  method LookAgain(db: Database, c: CallId, command: Command, ghost call: Call)
    returns (r: Result<Option<Outcome>, Error>)
    requires db.Valid() && c in db.calls && db.calls[c] == call && call.pc == Reconnecting(Classify)
    requires call.command == command
    modifies db
    ensures db.Valid() && Continues(old(db.run), db.run)
    ensures MovedTo(db.calls, c, call, r, if r.Ok? && r.value.Some? then Done(r.value.value) else Rereading)
  {
    var _ :- OpenConnection(db, c, call);
    var existing :- ExistingBidOf(db, c, db.calls[c]);
    if existing.Some? {
      db.Leave(c);
      return Ok(Some(ReplayOrReject(existing.value, command, 1, 0)));
    }
    r := Ok(None);
  }

  /** The same, and the auction read again. */
  method LookAndReadAgain(db: Database, c: CallId, command: Command, attempt: int, ghost call: Call)
    returns (r: Result<Result<Auction, Outcome>, Error>)
    requires db.Valid() && c in db.calls && db.calls[c] == call && call.pc == Reconnecting(Classify)
    requires call.command == command && call.attempt == attempt
    modifies db
    ensures db.Valid() && Continues(old(db.run), db.run)
    ensures c in db.calls && db.calls[c] == call.(pc := match r
                                                        case Err(e) => Raised(e)
                                                        case Ok(Err(o)) => Done(o)
                                                        case Ok(Ok(auction)) => Retiming(auction))
  {
    var replay :- LookAgain(db, c, command, call);
    if replay.Some? {
      return Ok(Err(replay.value));
    }
    var auction :- ReadAuctionOf(db, c, db.calls[c]);
    if auction.None? {
      db.Leave(c);
      return Ok(Err(Rejected(AuctionNotFound, None, attempt, attempt)));
    }
    r := Ok(Ok(auction.value));
  }

  /** The reading half of the two strategies that take no lock for it. */
  method ExamineUnlocked(db: Database, c: CallId, command: Command, attempt: int, ghost call: Call)
    returns (r: Result<Examined, Error>)
    requires db.Valid() && c in db.calls && db.calls[c] == call && call.pc.Connecting?
    requires call.command == command && call.attempt == attempt && !call.strategy.Pessimistic?
    modifies db
    ensures db.Valid() && Continues(old(db.run), db.run)
    ensures AfterExamination(db.calls, c, call, r) && Finding(db.Snapshot(), db.run, c, command, r)
  {
    r := LookAndEvaluate(db, c, command, attempt, call);
    ExaminationFinds(db, c, call, r);
  }

  method LookAndEvaluate(db: Database, c: CallId, command: Command, attempt: int, ghost call: Call)
    returns (r: Result<Examined, Error>)
    requires db.Valid() && c in db.calls && db.calls[c] == call && call.pc.Connecting?
    requires call.command == command && call.attempt == attempt && !call.strategy.Pessimistic?
    modifies db
    ensures db.Valid() && Continues(old(db.run), db.run)
    ensures AfterExamination(db.calls, c, call, r)
  {
    var read :- LookAndRead(db, c, command, attempt, call);
    if read.Err? {
      return Ok(Settled(read.error));
    }
    var now :- TimeOf(db, c, db.calls[c]);
    r := EvaluateOrLeave(db, c, read.value, now, attempt, call);
  }

  /**
   The reading half of the pessimistic strategy: the clock and the request id are read again once the lock is held.
   */
  method ExamineLocked(db: Database, c: CallId, command: Command, ghost call: Call) returns (r: Result<Examined, Error>)
    requires db.Valid() && c in db.calls && db.calls[c] == call && call.pc.Connecting?
    requires call.command == command && call.attempt == 1 && call.strategy.Pessimistic?
    modifies db
    ensures db.Valid() && Continues(old(db.run), db.run)
    ensures AfterExamination(db.calls, c, call, r) && Finding(db.Snapshot(), db.run, c, command, r)
    ensures r.Ok? && r.value.Acceptable? ==>
              var a := command.auction;
              && a in db.locks && db.locks[a] == c
              && a in db.auctions && db.auctions[a] == r.value.auction
  {
    r := LockAndEvaluate(db, c, command, call);
    ExaminationFinds(db, c, call, r);
  }

  method LockAndEvaluate(db: Database, c: CallId, command: Command, ghost call: Call)
    returns (r: Result<Examined, Error>)
    requires db.Valid() && c in db.calls && db.calls[c] == call && call.pc.Connecting?
    requires call.command == command && call.attempt == 1 && call.strategy.Pessimistic?
    modifies db
    ensures db.Valid() && Continues(old(db.run), db.run)
    ensures AfterExamination(db.calls, c, call, r)
  {
    var read :- LookAndRead(db, c, command, 1, call);
    if read.Err? {
      return Ok(Settled(read.error));
    }
    var now :- TimeOf(db, c, db.calls[c]);
    r := RecheckAndEvaluate(db, c, command, read.value, now, call);
  }

  /** Under the lock: look for the request id again, then evaluate the bid. */
  method RecheckAndEvaluate(db: Database, c: CallId, command: Command, auction: Auction, now: Instant, ghost call: Call)
    returns (r: Result<Examined, Error>)
    requires db.Valid() && c in db.calls && call.command == command && call.attempt == 1
    requires db.calls[c] == call.(pc := Rechecking(auction, now))
    modifies db
    ensures db.Valid() && Continues(old(db.run), db.run)
    ensures AfterExamination(db.calls, c, call, r)
  {
    var existing :- ExistingBidOf(db, c, db.calls[c]);
    if existing.Some? {
      db.Leave(c);
      return Ok(Settled(ReplayOrReject(existing.value, command, 1, 0)));
    }
    r := EvaluateOrLeave(db, c, auction, now, 1, call);
  }

  /** Insert, update and commit; a unique violation turns the call into a search for the bid that caused it. */
  method WriteBid(db: Database, c: CallId, command: Command, ghost call: Call) returns (r: Result<Outcome, Error>)
    requires db.Valid() && c in db.calls && db.calls[c] == call && call.pc.Inserting?
    requires call.command == command && !call.strategy.Optimistic? && call.attempt == 1
    modifies db
    ensures db.Valid() && Continues(old(db.run), db.run)
    ensures Completes(db.calls, c, call.strategy, command, r)
  {
    var bid :- InsertBidOf(db, c, call);
    if bid.None? {
      db.Leave(c);
      r := ResolveDuplicateRequest(db, c, command, db.calls[c]);
      return;
    }
    var _ :- UpdateAndCommit(db, c, db.calls[c]);
    r := Ok(Accepted(bid.value, 1, 0));
  }

  class UnsafeBidStrategy {
    const db: Database

    constructor (database: Database)
      ensures db == database
    {
      db := database;
    }

    method PlaceBid(c: CallId, command: Command) returns (r: Result<Outcome, Error>)
      requires db.Valid() && c !in db.calls && ValidCommand(command)
      modifies db
      ensures db.Valid() && Continues(old(db.run), db.run)
      ensures Completes(db.calls, c, Unsafe, command, r) && ResultExplained(db.run, c, command, r)
    {
      db.StartCall(c, Unsafe, command);
      r := Place(c, command);
      ResultIsExplained(db.run, c, r);
    }

    /** One transaction of a call that has begun: examine, then write. */
    method Place(c: CallId, command: Command) returns (r: Result<Outcome, Error>)
      requires db.Valid() && c in db.calls && db.calls[c] == Call(Unsafe, command, 1, [], Connecting)
      modifies db
      ensures db.Valid() && Continues(old(db.run), db.run) && Completes(db.calls, c, Unsafe, command, r)
    {
      var examined :- ExamineUnlocked(db, c, command, 1, db.calls[c]);
      if examined.Settled? {
        return Ok(examined.outcome);
      }
      r := WriteBid(db, c, command, db.calls[c]);
    }
  }

  class PessimisticBidStrategy {
    const db: Database

    constructor (database: Database)
      ensures db == database
    {
      db := database;
    }

    method PlaceBid(c: CallId, command: Command) returns (r: Result<Outcome, Error>)
      requires db.Valid() && c !in db.calls && ValidCommand(command)
      modifies db
      ensures db.Valid() && Continues(old(db.run), db.run)
      ensures Completes(db.calls, c, Pessimistic, command, r) && ResultExplained(db.run, c, command, r)
    {
      db.StartCall(c, Pessimistic, command);
      r := Place(c, command);
      ResultIsExplained(db.run, c, r);
    }

    /** One transaction of a call that has begun: examine, then write. */
    method Place(c: CallId, command: Command) returns (r: Result<Outcome, Error>)
      requires db.Valid() && c in db.calls && db.calls[c] == Call(Pessimistic, command, 1, [], Connecting)
      modifies db
      ensures db.Valid() && Continues(old(db.run), db.run) && Completes(db.calls, c, Pessimistic, command, r)
    {
      var examined :- ExamineLocked(db, c, command, db.calls[c]);
      if examined.Settled? {
        return Ok(examined.outcome);
      }
      r := WriteBid(db, c, command, db.calls[c]);
    }
  }

  /** The source's constructor: a number of attempts that is not positive is an error. */
  method NewOptimisticStrategy(db: Database, max: int) returns (r: Result<OptimisticBidStrategy, string>)
    ensures r.Ok? <==> max > 0
    ensures r.Ok? ==> fresh(r.value) && r.value.db == db && r.value.maxAttempts == max
  {
    if max <= 0 {
      return Err("max_attempts must be positive");
    }
    var strategy := new OptimisticBidStrategy(db, max);
    r := Ok(strategy);
  }

  /** How one optimistic attempt ends: with an answer, or with one of the two exceptions that are handled. */
  datatype Attempt = Answered(outcome: Outcome) | OptimisticMiss(observedVersion: int) | UniqueViolation

  class OptimisticBidStrategy {
    const db: Database
    const maxAttempts: int

    constructor (database: Database, max: int)
      requires max > 0
      ensures db == database && maxAttempts == max
    {
      db, maxAttempts := database, max;
    }

    /** The call is on this attempt of this command. */
    ghost predicate OnAttempt(call: Call, command: Command, attempt: int) {
      call.strategy == Optimistic(maxAttempts) && call.command == command && call.attempt == attempt
    }

    ghost predicate AttemptEnded(call: Call, tried: Result<Attempt, Error>) {
      match tried
      case Err(e) => call.pc == Raised(e)
      case Ok(Answered(o)) => call.pc == Done(o)
      case Ok(OptimisticMiss(version)) =>
        call.pc == Reconnecting(Classify) && call.misses != [] && call.misses[|call.misses| - 1].version == version
      case Ok(UniqueViolation) => call.pc == Reconnecting(Resolve)
    }

    method TryOnce(c: CallId, command: Command, attempt: int) returns (tried: Result<Attempt, Error>)
      requires db.Valid() && c in db.calls && OnAttempt(db.calls[c], command, attempt) && db.calls[c].pc.Connecting?
      modifies db
      ensures db.Valid() && Continues(old(db.run), db.run)
      ensures c in db.calls && OnAttempt(db.calls[c], command, attempt) && AttemptEnded(db.calls[c], tried)
      ensures tried.Err? ==> ResultExplained(db.run, c, command, Err(tried.error))
      ensures tried.Ok? && tried.value.Answered? ==> ResultExplained(db.run, c, command, Ok(tried.value.outcome))
    {
      tried := RunAttempt(c, command, attempt);
      if tried.Err? {
        ResultIsExplained(db.run, c, Err(tried.error));
      } else if tried.value.Answered? {
        ResultIsExplained(db.run, c, Ok(tried.value.outcome));
      }
    }

    /** The transaction of one attempt. */
    method RunAttempt(c: CallId, command: Command, attempt: int) returns (tried: Result<Attempt, Error>)
      requires db.Valid() && c in db.calls && OnAttempt(db.calls[c], command, attempt) && db.calls[c].pc.Connecting?
      modifies db
      ensures db.Valid() && Continues(old(db.run), db.run)
      ensures c in db.calls && OnAttempt(db.calls[c], command, attempt) && AttemptEnded(db.calls[c], tried)
    {
      var examined :- ExamineUnlocked(db, c, command, attempt, db.calls[c]);
      if examined.Settled? {
        return Ok(Answered(examined.outcome));
      }
      var bid :- InsertBidOf(db, c, db.calls[c]);
      if bid.None? {
        db.Leave(c);
        return Ok(UniqueViolation);
      }
      var updated, _ := GuardedUpdate(db, c, db.calls[c]);
      if updated.Err? {
        return Err(updated.error);
      }
      if !updated.value {
        db.Leave(c);
        return Ok(OptimisticMiss(examined.auction.version));
      }
      var _ :- CommitBidOf(db, c, db.calls[c]);
      tried := Ok(Answered(Accepted(bid.value, attempt, attempt - 1)));
    }

    ghost predicate ClassificationEnded(call: Call, command: Command, attempt: int,
        classified: Result<Option<Outcome>, Error>) {
      match classified
      case Err(e) => OnAttempt(call, command, attempt) && call.pc == Raised(e)
      case Ok(Some(o)) => OnAttempt(call, command, attempt) && call.pc == Done(o)
      case Ok(None) => attempt < maxAttempts && OnAttempt(call, command, attempt + 1) && call.pc == Connecting
    }

    /** After a miss: an outcome, or None to try again. */
    method ClassifyAfterMiss(c: CallId, command: Command, attempt: int)
      returns (classified: Result<Option<Outcome>, Error>)
      requires db.Valid() && c in db.calls && OnAttempt(db.calls[c], command, attempt)
      requires db.calls[c].pc == Reconnecting(Classify)
      modifies db
      ensures db.Valid() && Continues(old(db.run), db.run) && c in db.calls
      ensures ClassificationEnded(db.calls[c], command, attempt, classified)
      ensures classified.Err? ==> ResultExplained(db.run, c, command, Err(classified.error))
      ensures classified.Ok? && classified.value.Some? ==>
              ResultExplained(db.run, c, command, Ok(classified.value.value))
    {
      classified := RereadAndClassify(c, command, attempt);
      if classified.Err? {
        ResultIsExplained(db.run, c, Err(classified.error));
      } else if classified.value.Some? {
        ResultIsExplained(db.run, c, Ok(classified.value.value));
      }
    }

    /** Look, read and evaluate on a new connection. */
    method RereadAndClassify(c: CallId, command: Command, attempt: int)
      returns (classified: Result<Option<Outcome>, Error>)
      requires db.Valid() && c in db.calls && OnAttempt(db.calls[c], command, attempt)
      requires db.calls[c].pc == Reconnecting(Classify)
      modifies db
      ensures db.Valid() && Continues(old(db.run), db.run) && c in db.calls
      ensures ClassificationEnded(db.calls[c], command, attempt, classified)
    {
      var read :- LookAndReadAgain(db, c, command, attempt, db.calls[c]);
      if read.Err? {
        return Ok(Some(read.error));
      }
      var now :- TimeOf(db, c, db.calls[c]);
      classified := Reclassify(c, command, attempt, read.value, now);
    }

    /** Evaluate the bid again on what is committed now. */
    method Reclassify(c: CallId, command: Command, attempt: int, auction: Auction, now: Instant)
      returns (classified: Result<Option<Outcome>, Error>)
      requires db.Valid() && c in db.calls && OnAttempt(db.calls[c], command, attempt)
      requires db.calls[c].pc == DecideAfterMiss(db.calls[c], auction, now)
      modifies db
      ensures db.Valid() && Continues(old(db.run), db.run) && c in db.calls
      ensures ClassificationEnded(db.calls[c], command, attempt, classified)
    {
      db.Leave(c);
      var evaluation := EvaluateBid(auction, command.amount, now);
      if evaluation.Err? {
        return Err(MoneyOverflow);
      }
      if !evaluation.value.accepted {
        return Ok(Some(Rejected(evaluation.value.reason.value, Some(evaluation.value.minimum), attempt, attempt)));
      }
      if attempt >= maxAttempts {
        return Ok(Some(Rejected(ConflictRetryExhausted, None, attempt, attempt)));
      }
      classified := Ok(None);
    }

    method PlaceBid(c: CallId, command: Command) returns (r: Result<Outcome, Error>)
      requires db.Valid() && c !in db.calls && ValidCommand(command) && maxAttempts > 0
      modifies db
      ensures db.Valid() && Continues(old(db.run), db.run)
      ensures Completes(db.calls, c, Optimistic(maxAttempts), command, r) && ResultExplained(db.run, c, command, r)
    {
      db.StartCall(c, Optimistic(maxAttempts), command);
      r := Retry(c, command);
      ResultIsExplained(db.run, c, r);
    }

    /** The retry loop of a call that has begun always answers from inside: the return behind it is never reached. */
    method Retry(c: CallId, command: Command) returns (r: Result<Outcome, Error>)
      requires db.Valid() && c in db.calls && maxAttempts > 0
      requires db.calls[c] == Call(Optimistic(maxAttempts), command, 1, [], Connecting)
      modifies db
      ensures db.Valid() && Continues(old(db.run), db.run)
      ensures Completes(db.calls, c, Optimistic(maxAttempts), command, r)
    {
      var attempt := 1;
      while attempt <= maxAttempts
        invariant 1 <= attempt <= maxAttempts
        invariant db.Valid() && Continues(old(db.run), db.run)
        invariant c in db.calls && OnAttempt(db.calls[c], command, attempt) && db.calls[c].pc.Connecting?
        decreases maxAttempts - attempt
      {
        var tried :- TryOnce(c, command, attempt);
        match tried {
          case Answered(outcome) =>
            return Ok(outcome);
          case OptimisticMiss(_) =>
            var classification :- ClassifyAfterMiss(c, command, attempt);
            if classification.Some? {
              return Ok(classification.value);
            }
          case UniqueViolation =>
            r := ResolveDuplicateRequest(db, c, command, db.calls[c]);
            return;
        }
        attempt := attempt + 1;
      }
      assert false;
    }
  }
}
