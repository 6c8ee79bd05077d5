/** How far any run, of any tool and under any fault, moves the counter from the rebuilt total. */
module Drift {
  import opened Common
  import opened Books
  import opened Sums
  import opened Engine
  import opened Accounting

  /** The rebuilt total minus the live counter. */
  function Gap(b: Books): int
    requires b.counter.Some?
  {
    RebuiltSpend(b.logs, b.ledger) - b.counter.value.spent
  }

  /** What a completed rejection adds: the refund is clamped at zero, so it falls short when the row's cost exceeds
    * what the counter holds. */
  function RefundDrift(c: Counter, cost: int): int {
    if cost <= 0 then -cost
    else if cost > c.spent then c.spent - cost
    else 0
  }

  /** What a run adds to the gap, as a caller can tell from the call, its outcome and the state before. */
  function DriftOf(b: Books, call: Call, fault: Fault, outcome: Outcome): int
    requires b.counter.Some?
  {
    match outcome
    case Refused => 0
    case Aborted(_) => if call.CallReject? && fault == RefundFails then -CostOfLog(b.logs, call.logId) else LoggedCost(call)
    case Unsettled(_) => LoggedCost(call)
    case Completed(_, _, _) =>
      if call.CallReject? then RefundDrift(b.counter.value, CostOfLog(b.logs, call.logId))
      else LoggedCost(call) - if Estimate(call) > 0 then Estimate(call) else 0
  }

  lemma AppendGap(b: Books, call: Call, result: LogResult, tokens: int, cost: int, orphans: set<Id>)
    requires Kept(b, orphans) && b.counter.Some?
    ensures Gap(AppendLog(b, call, result, tokens, cost)) == Gap(b) + if result == Success then cost else 0
  {
    var row := LogRow(b.next, call.agent, ToolOf(call), result, tokens, cost);
    TotalAppend(b.logs, row, CostOf, ReversedIds(b.ledger));
    NotYetPosted(b.ledger, b.next);
  }

  lemma RefusalGap(b: Books, call: Call, fault: Fault, orphans: set<Id>)
    requires Kept(b, orphans) && b.counter.Some?
    ensures LogRefusal(b, call).counter.Some? && Gap(LogRefusal(b, call)) == Gap(b) + DriftOf(b, call, fault, Refused)
  {
    AppendGap(b, call, Refusal, 0, 0, orphans);
  }

  lemma SpendGap(b: Books, call: Call, reservation: Option<Id>, logId: Id)
    requires b.counter.Some?
    ensures var b' := RecordSpend(b, Estimate(call), reservation, logId);
            b'.counter.Some? && Gap(b') == Gap(b) - if Estimate(call) > 0 then Estimate(call) else 0
  {
  }

  lemma ReleaseGap(b: Books, reservation: Option<Id>)
    requires b.counter.Some?
    ensures var b' := SetReservation(b, reservation, Released);
            b'.counter.Some? && Gap(b') == Gap(b)
  {
  }

  lemma NotYetPosted(ledger: seq<LedgerRow>, next: Id)
    requires LedgerOrdered(ledger, next)
    ensures next !in ReversedIds(ledger)
  {
  }

  lemma ReversalGap(b: Books, orphans: set<Id>, target: Id)
    requires Kept(b, orphans) && b.counter.Some? && IsConfirmed(b.ledger, target)
    ensures Gap(b.(ledger := Post(b.ledger, Reversal(target)))) == Gap(b) - CostOfLog(b.logs, target)
  {
    ReversalCosts(b.logs, b.ledger, b.next, orphans, {}, target);
    assert ReversedIds(b.ledger) + {target} + {} == ReversedIds(b.ledger) + {target};
    assert ReversedIds(b.ledger) + {} == ReversedIds(b.ledger);
  }

  lemma ApplyGap(b: Books, call: Call, work: Work, tokens: int, logId: Id, fault: Fault, orphans: set<Id>)
    requires Kept(b, orphans) && b.counter.Some? && WorkFits(b, call, work)
    ensures var (b', ok) := Apply(b, call, work, tokens, logId, fault);
            && b'.counter.Some?
            && (!work.ToReverse? || fault == ApplyFails ==> Gap(b') == Gap(b))
            && (work.ToReverse? && ok ==> Gap(b') == Gap(b) + RefundDrift(b.counter.value, work.cost))
            && (work.ToReverse? && !ok && fault != ApplyFails ==> fault == RefundFails && Gap(b') == Gap(b) - work.cost)
  {
    if work.ToReverse? && fault != ApplyFails {
      ReversalGap(b, orphans, work.logId);
    } else {
      OthersSpendNothing(b, call, work, tokens, logId, fault);
    }
  }

  lemma EffectsCostLogged(b: Books, call: Call, work: Work)
    ensures FinalEffects(b, call, work).cost == LoggedCost(call)
  {
  }

  lemma SameMoneySameGap(b: Books, b': Books, call: Call, fault: Fault, outcome: Outcome)
    requires SameMoney(b, b') && b.counter.Some?
    ensures Gap(b') == Gap(b) && DriftOf(b', call, fault, outcome) == DriftOf(b, call, fault, outcome)
  {
  }

  /** Steps 5 and 6. */
  lemma LogAndApplyDrift(b: Books, call: Call, work: Work, effects: Effects, fault: Fault, orphans: set<Id>)
    requires Kept(b, orphans) && b.counter.Some? && WorkFits(b, call, work)
    ensures var (applied, ok) := Apply(AppendLog(b, call, Success, effects.tokens, effects.cost),
                                       call, work, effects.tokens, b.next, fault);
            && applied.counter.Some? && Gap(applied) == Gap(b) + effects.cost + ApplyDrift(b, work, ok, fault)
            && (!ok && work.ToReverse? ==> fault == ApplyFails || fault == RefundFails) && (ok ==> fault != ApplyFails)
  {
    var logged := AppendLog(b, call, Success, effects.tokens, effects.cost);
    AppendGap(b, call, Success, effects.tokens, effects.cost, orphans);
    StepFive(b, call, effects.tokens, effects.cost, orphans);
    WorkFitsLogged(b, call, work, effects, orphans);
    LoggedIsKept(logged, call, effects.tokens, b.next, orphans);
    assert fault == ApplyFails ==> !Apply(logged, call, work, effects.tokens, b.next, fault).1;
    hide Kept, Apply, Gap, RefundDrift, JustLogged, WorkFits;
    ApplyGap(logged, call, work, effects.tokens, b.next, fault, orphans + {b.next});
    assert logged.counter == b.counter;
  }

  lemma CommitDrifts(b: Books, call: Call, work: Work, effects: Effects, reservation: Option<Id>, fault: Fault, orphans: set<Id>)
    requires Kept(b, orphans) && b.counter.Some? && WorkFits(b, call, work)
    requires effects.cost == LoggedCost(call)
    ensures var (b', outcome) := Commit(b, call, work, effects, reservation, fault);
            b'.counter.Some? && Gap(b') == Gap(b) + DriftOf(b, call, fault, outcome)
  {
    hide Kept, Apply, Gap, RefundDrift, LoggedCost, RecordSpend, SetReservation, AppendLog, Estimate;
    LogAndApplyDrift(b, call, work, effects, fault, orphans);
    var (applied, ok) := Apply(AppendLog(b, call, Success, effects.tokens, effects.cost), call, work, effects.tokens, b.next, fault);
    SpendGap(applied, call, reservation, b.next);
    ReleaseGap(applied, reservation);
    if call.CallReject? {
      PlainCost(call);
    }
  }

  /** Step 6's share of the drift. */
  function ApplyDrift(b: Books, work: Work, ok: bool, fault: Fault): int
    requires b.counter.Some?
  {
    if !work.ToReverse? || fault == ApplyFails then 0
    else if ok then RefundDrift(b.counter.value, work.cost)
    else -work.cost
  }

  lemma PlainCost(call: Call)
    requires call.CallReject?
    ensures LoggedCost(call) == 0 && Estimate(call) == 0
  {
  }

  lemma LoggedIsKept(b: Books, call: Call, tokens: int, logId: Id, orphans: set<Id>)
    requires JustLogged(b, call, tokens, logId, orphans)
    ensures Kept(b, orphans + {logId})
  {
  }

  lemma PerformDrifts(b: Books, call: Call, reservation: Option<Id>, fault: Fault, orphans: set<Id>)
    requires Kept(b, orphans) && b.counter.Some? && Permitted(b, call)
    ensures var (b', outcome) := Perform(b, call, reservation, fault);
            b'.counter.Some? && Gap(b') == Gap(b) + DriftOf(b, call, fault, outcome)
  {
    hide Commit, Kept, Conserved, FinalEffects, Gap, LoggedCost, DriftOf, LogRefusal, Execute, Permitted, SetReservation, WorkFits;
    ReservationKeepsMoney(b, reservation, Released);
    RefusedDriftsNot(b, call, fault);
    var released := SetReservation(b, reservation, Released);
    SameMoneyKeeps(b, released, orphans);
    RefusalGap(released, call, fault, orphans);
    SameMoneySameGap(b, released, call, fault, Refused);
    if Execute(b, call).Some? {
      var (executed, work) := Execute(b, call).value;
      ExecuteFits(b, call);
      SameMoneyKeeps(b, executed, orphans);
      SameMoneySameGap(b, executed, call, fault, Perform(b, call, reservation, fault).1);
      var undone := SetReservation(executed, reservation, Released);
      ReservationKeepsMoney(executed, reservation, Released);
      SameMoneyKeeps(executed, undone, orphans);
      SameMoneySameGap(b, undone, call, fault, Refused);
      RefusalGap(undone, call, fault, orphans);
      EffectsCostLogged(executed, call, work);
      CommitDrifts(executed, call, work, FinalEffects(executed, call, work), reservation, fault, orphans);
    }
  }

  lemma RefusedDriftsNot(b: Books, call: Call, fault: Fault)
    requires b.counter.Some?
    ensures DriftOf(b, call, fault, Refused) == 0
  {
  }

  /** Main result: the exact drift of every run. A completed run of a repository tool other than a short refund adds
    * nothing; a run that failed after Step 5 adds the cost it logged. */
  lemma RunDrifts(b: Books, call: Call, now: int, prune: bool, fault: Fault, orphans: set<Id>)
    requires Kept(b, orphans) && b.counter.Some?
    ensures var (b', outcome) := Run(b, call, now, prune, fault);
            b'.counter.Some? && Gap(b') == Gap(b) + DriftOf(b, call, fault, outcome)
  {
    hide Perform, Kept, Conserved, Gap, DriftOf, LogRefusal, Gate, Reserve, Estimate;
    var (gated, ok) := Gate(b, call, now, prune);
    GatesKeepMoney(b, call, now, prune, gated);
    SameMoneyKeeps(b, gated, orphans);
    SameMoneySameGap(b, gated, call, fault, Refused);
    RefusalGap(gated, call, fault, orphans);
    RefusedDriftsNot(b, call, fault);
    if Permitted(gated, call) && Reserve(gated, Estimate(call)).Some? {
      var (reserved, reservation) := Reserve(gated, Estimate(call)).value;
      SameMoneyKeeps(gated, reserved, orphans);
      SameMoneySameGap(b, gated, call, fault, Perform(reserved, call, reservation, fault).1);
      SameMoneySameGap(gated, reserved, call, fault, Perform(reserved, call, reservation, fault).1);
      PerformDrifts(reserved, call, reservation, fault, orphans);
    }
  }

  /** A completed run keeps counter and rebuilt total equal exactly when the tool's logged cost is what Step 7 charges,
    * and, for a rejection, the row's cost lies between zero and what the counter holds. */
  lemma CompletedRunsAgreeIff(b: Books, call: Call, now: int, prune: bool, fault: Fault, orphans: set<Id>)
    requires Kept(b, orphans) && b.counter.Some? && Gap(b) == 0
    requires Run(b, call, now, prune, fault).1.Completed?
    ensures var b' := Run(b, call, now, prune, fault).0;
            b'.counter.Some?
            && (Gap(b') == 0 <==>
                if call.CallReject? then 0 <= CostOfLog(b.logs, call.logId) <= Max(0, b.counter.value.spent)
                else LoggedCost(call) == Max(0, Estimate(call)))
  {
    hide Run;
    RunDrifts(b, call, now, prune, fault, orphans);
  }

  function Max(x: int, y: int): int {
    if x > y then x else y
  }
}
