/** Every rejection by the rules is the pure rule's verdict on a row and a time the call really met, in that order. */
module Rejections {
  import opened Wrappers
  import opened Models
  import opened Rules
  import opened Transactions
  import opened Progress
  import opened RunSteps
  import opened LocalSteps

  /** Step j reads this row of the call's auction. */
  ghost predicate RowRead(run: Run, j: int, c: CallId, row: Auction) {
    && StatementOf(run, j, c)
    && (run.states[j].calls[c].pc.Reading? || run.states[j].calls[c].pc.Rereading?)
    && var a := run.states[j].calls[c].command.auction;
       a in run.states[j].auctions && run.states[j].auctions[a] == row
  }

  /** The call reads the row at step j and the clock later, in state k. */
  ghost predicate RowThenTime(run: Run, j: int, k: int, c: CallId, row: Auction, now: Instant) {
    j < k && RowRead(run, j, c, row) && InFlight(run, k, c) && run.states[k].clock == now
  }

  lemma {:induction false} HeldRowWasRead(run: Run, i: nat, c: CallId)
    requires IsRun(run) && i < |run.states| && c in run.states[i].calls && HeldRow(run.states[i].calls[c].pc).Some?
    ensures exists j :: j < i && RowRead(run, j, c, HeldRow(run.states[i].calls[c].pc).value)
  {
    if i == 0 {
    } else {
      assert Follows(run, i - 1);
      var s, row := run.states[i - 1], HeldRow(run.states[i].calls[c].pc).value;
      if c in s.calls {
        if HeldRow(s.calls[c].pc) == Some(row) {
          HeldRowWasRead(run, i - 1, c);
        } else {
          assert RowRead(run, i - 1, c, row);
        }
      }
    }
  }

  /** A call that holds a row meets the clock after reading it. */
  lemma TimeIsMet(run: Run, i: nat, c: CallId)
    requires IsRun(run) && i < |run.states| && c in run.states[i].calls
    requires HeldRow(run.states[i].calls[c].pc).Some?
    ensures exists j :: RowThenTime(run, j, i, c, HeldRow(run.states[i].calls[c].pc).value, run.states[i].clock)
  {
    var row := HeldRow(run.states[i].calls[c].pc).value;
    HeldRowWasRead(run, i, c);
    var j :| j < i && RowRead(run, j, c, row);
    assert RowThenTime(run, j, i, c, row, run.states[i].clock);
  }

  lemma {:induction false} HeldTimeWasMet(run: Run, i: nat, c: CallId)
    requires IsRun(run) && i < |run.states| && c in run.states[i].calls && HeldTime(run.states[i].calls[c].pc).Some?
    ensures HeldRow(run.states[i].calls[c].pc).Some?
    ensures exists j, k :: k < i &&
              RowThenTime(run, j, k, c, HeldRow(run.states[i].calls[c].pc).value,
                  HeldTime(run.states[i].calls[c].pc).value)
  {
    if i == 0 {
    } else {
      assert Follows(run, i - 1);
      var s, pc := run.states[i - 1], run.states[i].calls[c].pc;
      if c in s.calls {
        if HeldTime(s.calls[c].pc) == HeldTime(pc) {
          HeldTimeWasMet(run, i - 1, c);
        } else {
          TimeIsMet(run, i - 1, c);
        }
      }
    }
  }

  /** The reason and the minimum of a rejection by the rules, once it is decided. */
  function Refusal(pc: Pc): Option<(RejectionReason, Option<int>)> {
    match pc
    case Closing(Return(Rejected(reason, minimum, _, _))) =>
      if RuleReason(reason) then Some((reason, minimum)) else None
    case Done(Rejected(reason, minimum, _, _)) =>
      if RuleReason(reason) then Some((reason, minimum)) else None
    case _ => None
  }

  /** The pure rule refuses this amount on this row at this time, for this reason and with this minimum. */
  ghost predicate Refuses(row: Auction, amount: int, now: Instant, refusal: (RejectionReason, Option<int>)) {
    var evaluation := EvaluateBid(row, amount, now);
    && evaluation.Ok? && !evaluation.value.accepted
    && evaluation.value.reason == Some(refusal.0) && Some(evaluation.value.minimum) == refusal.1
  }

  /** The statements that decide a rejection by the rules. */
  predicate Decides(pc: Pc) {
    pc.Timing? || pc.Rechecking? || pc.Retiming?
  }

  function DecisionTime(pc: Pc, clock: Instant): Instant {
    if pc.Rechecking? then pc.now else clock
  }

  /** A refusal is passed on, or decided now on the row held, at the time held or just read. */
  ghost predicate RefusalFlow(call: Call, view: View, after: Pc) {
    Refusal(after).Some? ==>
      || Refusal(after) == Refusal(call.pc)
      || (Decides(call.pc)
          && Refuses(call.pc.row, call.command.amount, DecisionTime(call.pc, view.clock), Refusal(after).value))
  }

  lemma NextRefuses(call: Call, view: View, id: BidId)
    ensures RefusalFlow(call, view, Next(call, view, id).pc)
  {
  }

  lemma StepRefuses(s: State, c: CallId, id: BidId)
    requires Ready(s, c)
    ensures RefusalFlow(s.calls[c], Sees(s, c), Execute(s, c, id).calls[c].pc)
  {
    ExecuteIsNext(s, c, id);
    NextRefuses(s.calls[c], Sees(s, c), id);
  }

  /** The refusal is the rule's verdict on a row the call read and a time it met later, before state i. */
  ghost predicate Justified(run: Run, i: int, c: CallId, amount: int, refusal: (RejectionReason, Option<int>)) {
    exists j, k, row, now :: k < i && RowThenTime(run, j, k, c, row, now) && Refuses(row, amount, now, refusal)
  }

  /** The row a deciding call holds was read by it, and the time it decides at was met after that. */
  lemma DecisionWasMet(run: Run, i: nat, c: CallId)
    requires IsRun(run) && i < |run.states| && c in run.states[i].calls && Decides(run.states[i].calls[c].pc)
    ensures var pc := run.states[i].calls[c].pc;
            exists j, k :: k <= i && RowThenTime(run, j, k, c, pc.row, DecisionTime(pc, run.states[i].clock))
  {
    var pc, now := run.states[i].calls[c].pc, DecisionTime(run.states[i].calls[c].pc, run.states[i].clock);
    if pc.Rechecking? {
      HeldTimeWasMet(run, i, c);
      var j, k :| k < i && RowThenTime(run, j, k, c, pc.row, pc.now);
      assert RowThenTime(run, j, k, c, pc.row, now);
    } else {
      TimeIsMet(run, i, c);
      var j :| RowThenTime(run, j, i, c, pc.row, run.states[i].clock);
      assert RowThenTime(run, j, i, c, pc.row, now);
    }
  }

  lemma DecisionIsJustified(run: Run, i: nat, c: CallId, refusal: (RejectionReason, Option<int>))
    requires IsRun(run) && i < |run.states| && c in run.states[i].calls && Decides(run.states[i].calls[c].pc)
    requires var call := run.states[i].calls[c];
             Refuses(call.pc.row, call.command.amount, DecisionTime(call.pc, run.states[i].clock), refusal)
    ensures Justified(run, i + 1, c, run.states[i].calls[c].command.amount, refusal)
  {
    DecisionWasMet(run, i, c);
  }

  /**
   In any run of any mix of strategies, a rejection as not started, closed or too low is what the pure rule says of a
   row that was the committed one during the call and of a clock value the call read after it.
   */
  lemma {:induction false} RejectionsAreJustified(run: Run, i: nat, c: CallId)
    requires IsRun(run) && i < |run.states| && c in run.states[i].calls && Refusal(run.states[i].calls[c].pc).Some?
    ensures Justified(run, i, c, run.states[i].calls[c].command.amount, Refusal(run.states[i].calls[c].pc).value)
  {
    if i == 0 {
    } else {
      assert Follows(run, i - 1);
      var s, action := run.states[i - 1], run.actions[i - 1];
      var refusal := Refusal(run.states[i].calls[c].pc);
      if c in s.calls {
        RunGrows(run, i - 1, i);
        if action.Statement? && action.call == c {
          StepRefuses(s, c, action.id);
        }
        if Refusal(s.calls[c].pc) == refusal {
          RejectionsAreJustified(run, i - 1, c);
        } else {
          DecisionIsJustified(run, i - 1, c, refusal.value);
        }
      }
    }
  }
}
