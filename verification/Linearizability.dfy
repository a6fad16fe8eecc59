/**
 Linearizability of the pessimistic strategy: whatever the interleaving, completed calls answer as if a sequential
 object had served them one at a time, each at a moment inside its own call.
 */
module Linearizability {
  import opened Wrappers
  import opened Models
  import opened Rules
  import opened Transactions
  import opened BaseInvariant
  import opened Preservation
  import opened Progress
  import opened LocalSteps
  import opened SafeRefinement
  import opened Outcomes
  import opened Deadlock

  // ----- The sequential object

  datatype Tables = Tables(auctions: map<AuctionId, Auction>, bids: seq<Bid>)

  function FindBid(bids: seq<Bid>, request: RequestId): Option<Bid> {
    if bids == [] then None
    else if bids[|bids| - 1].request == request then Some(bids[|bids| - 1])
    else FindBid(bids[..|bids| - 1], request)
  }

  /**
   One call served alone: request id first, then the auction, then the pure rules. It answers nothing if it raises.
   */
  function Serve(t: Tables, command: Command, now: Instant, id: BidId, acceptedAt: Instant): Option<(Tables, Outcome)> {
    match FindBid(t.bids, command.request)
    case Some(existing) => Some((t, ReplayOrReject(existing, command, 1, 0)))
    case None =>
      if command.auction !in t.auctions then Some((t, Rejected(AuctionNotFound, None, 1, 0)))
      else
        var row := t.auctions[command.auction];
        match EvaluateBid(row, command.amount, now)
        case Err(_) => None
        case Ok(evaluation) =>
          match ApplyAcceptedBid(row, id, command.amount, now)
          case Err(_) => Some((t, Rejected(evaluation.reason.value, Some(evaluation.minimum), 1, 0)))
          case Ok(next) =>
            var bid := TentativeBid(command, id, next.version, acceptedAt);
            Some((Tables(t.auctions[command.auction := next], t.bids + [bid]), Accepted(bid, 1, 0)))
  }

  /** A call taking effect at step `at` of a run, with the values it supplied and the outcome it reported. */
  datatype Event = Event(call: CallId, command: Command, now: Instant, id: BidId, acceptedAt: Instant,
      outcome: Outcome, at: nat)

  /** Serve events in order; fails unless each is answered with its own outcome. */
  function ServeAll(start: Tables, events: seq<Event>): Option<Tables> {
    if events == [] then Some(start)
    else
      match ServeAll(start, events[..|events| - 1])
      case None => None
      case Some(t) =>
        var e := events[|events| - 1];
        match Serve(t, e.command, e.now, e.id, e.acceptedAt)
        case None => None
        case Some(answer) => if answer.1 == e.outcome then Some(answer.0) else None
  }

  function TablesOf(s: State): Tables {
    Tables(s.auctions, Bids(s.log))
  }

  // ----- Where calls take effect

  /** The event of call c's next statement, if it takes effect there. */
  function EventOf(s: State, c: CallId, at: nat): Option<Event>
    requires c in s.calls
  {
    var command := s.calls[c].command;
    var existing := ExistingBid(s.log, command.request);
    match s.calls[c].pc
    case Lookup =>
      if existing.Some? then Some(Event(c, command, s.clock, 0, 0, ReplayOrReject(existing.value, command, 1, 0), at))
      else if command.auction !in s.auctions
      then Some(Event(c, command, s.clock, 0, 0, Rejected(AuctionNotFound, None, 1, 0), at))
      else None
    case Rechecking(row, now) =>
      if existing.Some? then Some(Event(c, command, now, 0, 0, ReplayOrReject(existing.value, command, 1, 0), at))
      else
        var evaluation := EvaluateBid(row, command.amount, now);
        if evaluation.Ok? && !evaluation.value.accepted then
          var refused := Rejected(evaluation.value.reason.value, Some(evaluation.value.minimum), 1, 0);
          Some(Event(c, command, now, 0, 0, refused, at))
        else None
    case Committing(_, now, bid, _, _) => Some(Event(c, command, now, bid.id, bid.acceptedAt, Accepted(bid, 1, 0), at))
    case Relooking(Resolve) =>
      if existing.Some? then Some(Event(c, command, s.clock, 0, 0, ReplayOrReject(existing.value, command, 1, 0), at))
      else None
    case _ => None
  }

  function StepEvents(s: State, action: Action, at: nat): seq<Event> {
    if action.Statement? && action.call in s.calls then
      match EventOf(s, action.call, at)
      case None => []
      case Some(e) => [e]
    else []
  }

  /** The events of the first n steps of a run. */
  function Events(run: Run, n: nat): seq<Event>
    requires n <= |run.actions| && n <= |run.states|
  {
    if n == 0 then [] else Events(run, n - 1) + StepEvents(run.states[n - 1], run.actions[n - 1], n - 1)
  }

  function EventsBy(events: seq<Event>, c: CallId): seq<Event> {
    if events == [] then []
    else
      var front := EventsBy(events[..|events| - 1], c);
      if events[|events| - 1].call == c then front + [events[|events| - 1]] else front
  }

  // ----- Each event is what the sequential object answers

  lemma {:induction false} FindBidIsExisting(log: seq<Commit>, r: RequestId)
    ensures FindBid(Bids(log), r) == ExistingBid(log, r)
  {
    if log == [] {
    } else {
      FindBidIsExisting(log[..|log| - 1], r);
      assert Bids(log)[..|log| - 1] == Bids(log[..|log| - 1]);
    }
  }

  /** A commit checked against the newest row is what the sequential object does with the bid at its validation time. */
  lemma CommitIsServed(s: State, c: CallId)
    requires Inv(s) && c in s.calls && s.calls[c].pc.Committing?
    requires s.calls[c].command.auction in s.auctions && s.calls[c].pc.row == s.auctions[s.calls[c].command.auction]
    ensures var pc := s.calls[c].pc;
            Serve(TablesOf(s), s.calls[c].command, pc.guardedAt, pc.bid.id, pc.bid.acceptedAt)
            == Some((TablesOf(CommitBid(s, c)), Accepted(pc.bid, 1, 0)))
  {
    var call := s.calls[c];
    FindBidIsExisting(s.log, call.command.request);
    assert CallOk(s.catalog, s.log, s.clock, s.drawn, c, call) && Protected(s.auctions, call);
    CommitOnNewestRow(s, c);
    assert Bids(CommitBid(s, c).log) == Bids(s.log) + [call.pc.bid];
  }

  /** A call that takes effect is answered, and leaves the tables, as the sequential object would. */
  lemma EventIsServed(s: State, c: CallId, id: BidId, at: nat)
    requires Inv(s) && SafeInv(s) && Ready(s, c) && s.calls[c].strategy.Pessimistic? && EventOf(s, c, at).Some?
    ensures var e := EventOf(s, c, at).value;
            Serve(TablesOf(s), e.command, e.now, e.id, e.acceptedAt) == Some((TablesOf(Execute(s, c, id)), e.outcome))
  {
    var call := s.calls[c];
    FindBidIsExisting(s.log, call.command.request);
    assert CallOk(s.catalog, s.log, s.clock, s.drawn, c, call) && Protected(s.auctions, call);
    if call.pc.Committing? {
      CommitIsServed(s, c);
      assert Execute(s, c, id) == CommitBid(s, c);
    }
  }

  /** Serving the events before a step and then its own gives the tables after the step. */
  lemma StepIsServed(s: State, action: Action, at: nat, start: Tables, events: seq<Event>)
    requires Inv(s) && SafeInv(s) && AllPessimistic(s) && Enabled(s, action)
    requires ServeAll(start, events) == Some(TablesOf(s))
    ensures ServeAll(start, events + StepEvents(s, action, at)) == Some(TablesOf(Perform(s, action)))
  {
    var step := StepEvents(s, action, at);
    if step != [] {
      EventIsServed(s, action.call, action.id, at);
      FrontOfAppend(events, step[0]);
    } else {
      assert events + step == events;
    }
  }

  lemma {:induction false} EventsAreServed(run: Run, n: nat)
    requires IsRun(run) && n < |run.states| && AllPessimistic(run.states[n])
    ensures ServeAll(TablesOf(run.states[0]), Events(run, n)) == Some(TablesOf(run.states[n]))
  {
    if n == 0 {
    } else {
      assert Follows(run, n - 1);
      RunGrows(run, n - 1, n);
      RunKeepsSafe(run, n - 1);
      EventsAreServed(run, n - 1);
      StepIsServed(run.states[n - 1], run.actions[n - 1], n - 1, TablesOf(run.states[0]), Events(run, n - 1));
    }
  }

  // ----- Each completed call takes effect once

  /** The outcome a call is bound to report. */
  function Decided(s: State, call: Call): Option<Outcome> {
    match call.pc
    case Closing(Return(o)) => Some(o)
    case Done(o) => Some(o)
    case Reading => if call.command.auction in s.auctions then None else Some(Rejected(AuctionNotFound, None, 1, 0))
    case _ => None
  }

  /** The call has raised or is about to. */
  predicate Failing(pc: Pc) {
    pc.Raised? || (pc.Closing? && pc.exit.Fail?)
  }

  /** A decision and its event come together, and neither a decision nor a failure is ever revised. */
  ghost predicate DecidesOnce(s: State, c: CallId, t: State) {
    && c in s.calls && c in t.calls && t.calls[c].command == s.calls[c].command
    && (Failing(s.calls[c].pc) ==> Failing(t.calls[c].pc))
    && var before, after, event := Decided(s, s.calls[c]), Decided(t, t.calls[c]), EventOf(s, c, 0);
       if event.Some? then before.None? && after == Some(event.value.outcome) else before == after
  }

  lemma NextDecides(s: State, c: CallId, id: BidId)
    requires Ready(s, c) && s.calls[c].strategy.Pessimistic? && CountsOk(s.calls[c])
    ensures var before := s.calls[c]; var after := Next(before, Sees(s, c), id);
            && (Failing(before.pc) ==> Failing(after.pc))
            && var event := EventOf(s, c, 0);
               if event.Some? then Decided(s, before).None? && Decided(s, after) == Some(event.value.outcome)
               else Decided(s, after) == Decided(s, before)
  {
  }

  lemma StatementDecides(s: State, c: CallId, id: BidId)
    requires Ready(s, c) && s.calls[c].strategy.Pessimistic? && CountsOk(s.calls[c])
    ensures DecidesOnce(s, c, Execute(s, c, id))
  {
    ExecuteIsNext(s, c, id);
    NextDecides(s, c, id);
  }

  /** The events of a call so far: the one deciding it, or none; a failed call may have left one without effect. */
  ghost predicate CallEvents(s: State, events: seq<Event>, c: CallId)
    requires c in s.calls
  {
    OwnEvents(s, c, EventsBy(events, c))
  }

  ghost predicate OwnEvents(s: State, c: CallId, own: seq<Event>)
    requires c in s.calls
  {
    var decided := Decided(s, s.calls[c]);
    if decided.Some? then |own| == 1 && own[0].outcome == decided.value && own[0].command == s.calls[c].command
    else if Failing(s.calls[c].pc) then |own| <= 1 && forall e | e in own :: !e.outcome.Accepted?
    else own == []
  }

  lemma EventsByAppend(events: seq<Event>, e: Event, c: CallId)
    ensures EventsBy(events + [e], c) == if e.call == c then EventsBy(events, c) + [e] else EventsBy(events, c)
  {
    FrontOfAppend(events, e);
  }

  /** The step number only stamps the event. */
  lemma EventOfIsStamped(s: State, c: CallId, at: nat)
    requires c in s.calls
    ensures EventOf(s, c, at).Some? <==> EventOf(s, c, 0).Some?
    ensures EventOf(s, c, at).Some? ==>
              var e := EventOf(s, c, at).value;
              e.call == c && e.command == s.calls[c].command && e.outcome == EventOf(s, c, 0).value.outcome
  {
  }

  lemma OwnEventIsAppended(s: State, c: CallId, id: BidId, events: seq<Event>, at: nat)
    requires c in s.calls
    ensures EventsBy(events + StepEvents(s, Statement(c, id), at), c)
            == EventsBy(events, c) + match EventOf(s, c, at) case None => [] case Some(e) => [e]
  {
    EventOfIsStamped(s, c, at);
    var step := StepEvents(s, Statement(c, id), at);
    if step != [] {
      EventsByAppend(events, step[0], c);
    } else {
      assert events + step == events;
    }
  }

  lemma DecisionKeepsEvents(s: State, c: CallId, t: State, own: seq<Event>, at: nat)
    requires DecidesOnce(s, c, t) && OwnEvents(s, c, own)
    ensures OwnEvents(t, c, own + match EventOf(s, c, at) case None => [] case Some(e) => [e])
  {
    EventOfIsStamped(s, c, at);
  }

  /** Steps of a call keep its events in line with its program counter. */
  lemma OwnStepKeepsEvents(s: State, c: CallId, id: BidId, events: seq<Event>, at: nat)
    requires Ready(s, c) && s.calls[c].strategy.Pessimistic? && CountsOk(s.calls[c])
    requires CallEvents(s, events, c)
    ensures CallEvents(Execute(s, c, id), events + StepEvents(s, Statement(c, id), at), c)
  {
    StatementDecides(s, c, id);
    OwnEventIsAppended(s, c, id, events, at);
    DecisionKeepsEvents(s, c, Execute(s, c, id), EventsBy(events, c), at);
  }

  lemma AbortKeepsEvents(s: State, c: CallId, fault: Fault, events: seq<Event>)
    requires Enabled(s, Abort(c, fault)) && CallEvents(s, events, c)
    ensures CallEvents(Aborted(s, c, fault), events, c)
  {
  }

  ghost predicate EventsOk(s: State, events: seq<Event>) {
    && (forall c | c in s.calls :: CallEvents(s, events, c))
    && (forall c | c !in s.calls :: EventsBy(events, c) == [])
  }

  /** A step of a run of pessimistic calls: its call's counters are in order and no auction appears or disappears. */
  ghost predicate PlainStep(s: State, action: Action) {
    && Enabled(s, action)
    && Perform(s, action).auctions.Keys == s.auctions.Keys
    && (action.Statement? ==> s.calls[action.call].strategy.Pessimistic? && CountsOk(s.calls[action.call]))
  }

  lemma OtherEventsStay(s: State, action: Action, events: seq<Event>, at: nat, c: CallId)
    requires !(action.Statement? && action.call == c)
    ensures EventsBy(events + StepEvents(s, action, at), c) == EventsBy(events, c)
  {
    var step := StepEvents(s, action, at);
    if step != [] {
      EventsByAppend(events, step[0], c);
    } else {
      assert events + step == events;
    }
  }

  lemma OtherCallKeepsEvents(s: State, action: Action, events: seq<Event>, at: nat, c: CallId)
    requires PlainStep(s, action) && EventsOk(s, events)
    requires c in Perform(s, action).calls && !(action.Statement? && action.call == c)
    ensures CallEvents(Perform(s, action), events + StepEvents(s, action, at), c)
  {
    OtherEventsStay(s, action, events, at, c);
    if c in s.calls {
      assert CallEvents(s, events, c);
      if action.Abort? && action.call == c {
        AbortKeepsEvents(s, c, action.fault, events);
      }
    }
  }

  lemma AbsentCallHasNoEvents(s: State, action: Action, events: seq<Event>, at: nat, c: CallId)
    requires PlainStep(s, action) && EventsOk(s, events) && c !in Perform(s, action).calls
    ensures EventsBy(events + StepEvents(s, action, at), c) == []
  {
    OtherEventsStay(s, action, events, at, c);
  }

  lemma StepKeepsCallEvents(s: State, action: Action, events: seq<Event>, at: nat, c: CallId)
    requires PlainStep(s, action) && EventsOk(s, events) && c in Perform(s, action).calls
    ensures CallEvents(Perform(s, action), events + StepEvents(s, action, at), c)
  {
    if action.Statement? && action.call == c {
      OwnStepKeepsEvents(s, c, action.id, events, at);
    } else {
      OtherCallKeepsEvents(s, action, events, at, c);
    }
  }

  lemma StepKeepsEvents(s: State, action: Action, events: seq<Event>, at: nat, t: State, longer: seq<Event>)
    requires PlainStep(s, action) && EventsOk(s, events)
    requires t == Perform(s, action) && longer == events + StepEvents(s, action, at)
    ensures EventsOk(t, longer)
  {
    forall c | c in t.calls ensures CallEvents(t, longer, c) {
      StepKeepsCallEvents(s, action, events, at, c);
    }
    forall c | c !in t.calls ensures EventsBy(longer, c) == [] {
      AbsentCallHasNoEvents(s, action, events, at, c);
    }
  }

  lemma KeysStay(s: State, c: CallId, id: BidId)
    requires Inv(s) && Ready(s, c)
    ensures Execute(s, c, id).auctions.Keys == s.auctions.Keys
  {
    if s.calls[c].pc.Committing? {
      assert Execute(s, c, id) == CommitBid(s, c);
    }
  }

  lemma EarlierIsPessimistic(run: Run, n: nat)
    requires IsRun(run) && 0 < n < |run.states| && AllPessimistic(run.states[n])
    ensures AllPessimistic(run.states[n - 1])
  {
    RunGrows(run, n - 1, n);
  }

  lemma RunStepIsPlain(run: Run, k: nat)
    requires IsRun(run) && k < |run.actions| && AllPessimistic(run.states[k])
    ensures Follows(run, k) && PlainStep(run.states[k], run.actions[k])
  {
    var s, action := run.states[k], run.actions[k];
    assert Follows(run, k);
    RunKeepsOutcomes(run, k);
    if action.Statement? {
      assert CallOutcome(s.log, action.call, s.calls[action.call]);
      KeysStay(s, action.call, action.id);
    }
  }

  lemma {:induction false} RunKeepsEvents(run: Run, n: nat)
    requires IsRun(run) && n < |run.states| && AllPessimistic(run.states[n])
    ensures EventsOk(run.states[n], Events(run, n))
  {
    if n == 0 {
    } else {
      EarlierIsPessimistic(run, n);
      RunKeepsEvents(run, n - 1);
      RunStepIsPlain(run, n - 1);
      StepKeepsEvents(run.states[n - 1], run.actions[n - 1], Events(run, n - 1), n - 1, run.states[n], Events(run, n));
    }
  }

  // ----- Each event lies inside its call

  /** The call has begun and has not finished when the step is taken. */
  ghost predicate InsideCall(run: Run, e: Event) {
    && e.at < |run.actions| && e.at < |run.states|
    && e.call in run.states[e.at].calls && !Finished(run.states[e.at].calls[e.call].pc)
  }

  lemma StepEventIsInside(run: Run, k: nat, e: Event)
    requires IsRun(run) && k < |run.actions| && e in StepEvents(run.states[k], run.actions[k], k)
    ensures e.at == k && InsideCall(run, e)
  {
    assert Follows(run, k);
  }

  lemma {:induction false} EventsAreOrdered(run: Run, n: nat)
    requires IsRun(run) && n < |run.states|
    ensures forall k | 0 <= k < |Events(run, n)| :: Events(run, n)[k].at < n && InsideCall(run, Events(run, n)[k])
    ensures forall j, k | 0 <= j < k < |Events(run, n)| :: Events(run, n)[j].at < Events(run, n)[k].at
  {
    if n == 0 {
    } else {
      EventsAreOrdered(run, n - 1);
      var step := StepEvents(run.states[n - 1], run.actions[n - 1], n - 1);
      forall e | e in step ensures e.at == n - 1 && InsideCall(run, e) {
        StepEventIsInside(run, n - 1, e);
      }
    }
  }

  /** The clock value a call carries was read after the call began. */
  ghost predicate ReadSince(call: Call, begun: Instant) {
    HeldTime(call.pc).Some? ==> begun <= HeldTime(call.pc).value
  }

  lemma {:induction false} TimesAreReadInside(run: Run, i: nat, n: nat, c: CallId)
    requires IsRun(run) && i <= n < |run.states|
    requires c !in run.states[i].calls && c in run.states[n].calls
    ensures ReadSince(run.states[n].calls[c], run.states[i].clock)
    decreases n
  {
    assert Follows(run, n - 1);
    RunGrows(run, n - 1, n);
    RunGrows(run, i, n - 1);
    if c !in run.states[n - 1].calls {
    } else {
      TimesAreReadInside(run, i, n - 1, c);
    }
  }

  /** An event's time is a clock value between the beginning of its call and its effect. */
  ghost predicate TimedInside(run: Run, e: Event) {
    && InsideCall(run, e) && e.now <= run.states[e.at].clock
    && forall i | 0 <= i < |run.states| && e.call !in run.states[i].calls :: run.states[i].clock <= e.now
  }

  lemma {:induction false} EventsAreTimed(run: Run, n: nat)
    requires IsRun(run) && n < |run.states| && AllPessimistic(run.states[n])
    ensures forall k | 0 <= k < |Events(run, n)| :: TimedInside(run, Events(run, n)[k])
  {
    if n == 0 {
    } else {
      assert Follows(run, n - 1);
      EarlierIsPessimistic(run, n);
      EventsAreTimed(run, n - 1);
      var step := StepEvents(run.states[n - 1], run.actions[n - 1], n - 1);
      if step != [] {
        EventIsTimed(run, n - 1, run.actions[n - 1].call);
      }
    }
  }

  lemma EventIsTimed(run: Run, at: nat, c: CallId)
    requires IsRun(run) && at < |run.actions| && AllPessimistic(run.states[at])
    requires Ready(run.states[at], c) && EventOf(run.states[at], c, at).Some?
    ensures TimedInside(run, EventOf(run.states[at], c, at).value)
  {
    var s := run.states[at];
    var e := EventOf(s, c, at).value;
    RunKeepsInv(run, at);
    assert CallOk(s.catalog, s.log, s.clock, s.drawn, c, s.calls[c]);
    forall i | 0 <= i < |run.states| && e.call !in run.states[i].calls ensures run.states[i].clock <= e.now {
      if at < i {
        RunGrows(run, at, i);
      }
      RunGrows(run, i, at);
      TimesAreReadInside(run, i, at, c);
    }
  }

  // ----- Dropping events of calls that have not completed

  function Completed(events: seq<Event>, s: State): seq<Event> {
    if events == [] then []
    else
      var front := Completed(events[..|events| - 1], s);
      var e := events[|events| - 1];
      if e.call in s.calls && s.calls[e.call].pc.Done? then front + [e] else front
  }

  /** Only events without effect are dropped, so the same tables result. */
  lemma {:induction false} CompletedIsServed(start: Tables, events: seq<Event>, s: State)
    requires ServeAll(start, events).Some?
    requires forall e | e in events && !(e.call in s.calls && s.calls[e.call].pc.Done?) :: !e.outcome.Accepted?
    ensures ServeAll(start, Completed(events, s)) == ServeAll(start, events)
  {
    if events == [] {
    } else {
      var front := events[..|events| - 1];
      var e := events[|events| - 1];
      CompletedIsServed(start, front, s);
      FrontOfAppend(Completed(front, s), e);
      assert e in events;
    }
  }

  lemma {:induction false} CompletedEventsBy(events: seq<Event>, s: State, c: CallId)
    ensures EventsBy(Completed(events, s), c) == if c in s.calls && s.calls[c].pc.Done? then EventsBy(events, c) else []
  {
    if events == [] {
    } else {
      CompletedEventsBy(events[..|events| - 1], s, c);
      EventsByAppend(Completed(events[..|events| - 1], s), events[|events| - 1], c);
    }
  }

  /** Filtering keeps the order of the steps. */
  lemma {:induction false} CompletedIsOrdered(run: Run, events: seq<Event>, s: State)
    requires forall k | 0 <= k < |events| :: InsideCall(run, events[k]) && TimedInside(run, events[k])
    requires forall j, k | 0 <= j < k < |events| :: events[j].at < events[k].at
    ensures forall k | 0 <= k < |Completed(events, s)| ::
            TimedInside(run, Completed(events, s)[k]) && Completed(events, s)[k] in events
    ensures forall j, k | 0 <= j < k < |Completed(events, s)| :: Completed(events, s)[j].at < Completed(events, s)[k].at
  {
    if events == [] {
    } else {
      CompletedIsOrdered(run, events[..|events| - 1], s);
    }
  }

  lemma {:induction false} EventBelongs(events: seq<Event>, k: nat)
    requires k < |events|
    ensures events[k] in EventsBy(events, events[k].call)
  {
    var n := |events| - 1;
    if k == n {
    } else {
      EventBelongs(events[..n], k);
      assert EventsBy(events[..n], events[k].call) <= EventsBy(events, events[k].call);
    }
  }

  lemma {:induction false} EventsByComeFrom(h: seq<Event>, c: CallId)
    ensures forall e | e in EventsBy(h, c) :: e in h && e.call == c
  {
    if h == [] {
    } else {
      EventsByComeFrom(h[..|h| - 1], c);
    }
  }

  /** Events of calls that have not completed had no effect. */
  lemma UnfinishedHadNoEffect(s: State, events: seq<Event>, k: nat)
    requires OutcomeInv(s) && EventsOk(s, events) && k < |events|
    requires !(events[k].call in s.calls && s.calls[events[k].call].pc.Done?)
    ensures !events[k].outcome.Accepted?
  {
    var c := events[k].call;
    EventBelongs(events, k);
    assert c in s.calls;
    assert CallEvents(s, events, c) && CallOutcome(s.log, c, s.calls[c]);
  }

  /** The events of a run's completed calls are served and end in the committed tables. */
  lemma CompletedEventsAreServed(run: Run, n: nat)
    requires IsRun(run) && n < |run.states| && AllPessimistic(run.states[n])
    ensures ServeAll(TablesOf(run.states[0]), Completed(Events(run, n), run.states[n])) == Some(TablesOf(run.states[n]))
  {
    var s := run.states[n];
    var events := Events(run, n);
    EventsAreServed(run, n);
    RunKeepsEvents(run, n);
    RunKeepsOutcomes(run, n);
    forall e | e in events && !(e.call in s.calls && s.calls[e.call].pc.Done?) ensures !e.outcome.Accepted? {
      var k :| 0 <= k < |events| && events[k] == e;
      UnfinishedHadNoEffect(s, events, k);
    }
    CompletedIsServed(TablesOf(run.states[0]), events, s);
  }

  /** A completed call appears exactly once, with its own command and outcome; any other call does not appear. */
  ghost predicate AppearsOnce(s: State, h: seq<Event>, c: CallId)
    requires c in s.calls
  {
    var own := EventsBy(h, c);
    if s.calls[c].pc.Done?
    then |own| == 1 && own[0].outcome == s.calls[c].pc.outcome && own[0].command == s.calls[c].command
    else own == []
  }

  lemma CompletedCallsAppearOnce(run: Run, n: nat, c: CallId)
    requires IsRun(run) && n < |run.states| && AllPessimistic(run.states[n]) && c in run.states[n].calls
    ensures AppearsOnce(run.states[n], Completed(Events(run, n), run.states[n]), c)
  {
    RunKeepsEvents(run, n);
    CompletedEventsBy(Events(run, n), run.states[n], c);
    assert CallEvents(run.states[n], Events(run, n), c);
  }

  // ----- Main result

  /**
   A sequential history of the run: legal, in the order of effects, each effect and its clock value inside its call.
   */
  ghost predicate IsSequentialHistory(run: Run, h: seq<Event>)
    requires run.states != []
  {
    && ServeAll(TablesOf(run.states[0]), h) == Some(TablesOf(Last(run)))
    && (forall k | 0 <= k < |h| :: TimedInside(run, h[k]))
    && (forall j, k | 0 <= j < k < |h| :: h[j].at < h[k].at)
  }

  /**
   Every run of pessimistic calls is linearizable: there is a history that the sequential object serves, ending in the
   committed tables, in which every completed call appears exactly once with its own command and outcome, at a step
   inside the call and with a clock value read inside the call; calls that raised or are still running do not appear.
   */
  lemma PessimisticRunsAreLinearizable(run: Run) returns (h: seq<Event>)
    requires IsRun(run) && AllPessimistic(Last(run))
    ensures IsSequentialHistory(run, h)
    ensures forall c | c in Last(run).calls :: AppearsOnce(Last(run), h, c)
    ensures forall k | 0 <= k < |h| :: h[k].call in Last(run).calls
  {
    var n := |run.actions|;
    h := Completed(Events(run, n), run.states[n]);
    CompletedEventsAreServed(run, n);
    EventsAreOrdered(run, n);
    EventsAreTimed(run, n);
    CompletedIsOrdered(run, Events(run, n), run.states[n]);
    forall c | c in Last(run).calls ensures AppearsOnce(Last(run), h, c) {
      CompletedCallsAppearOnce(run, n, c);
    }
    forall k | 0 <= k < |h| ensures h[k].call in Last(run).calls {
      RunGrows(run, h[k].at, n);
    }
  }
}
