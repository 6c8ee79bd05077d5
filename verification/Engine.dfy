/** Engine.Run as a function of one covenant's rows: the eight steps of internal/execution/execution.go with the
  * budget operations of internal/budget/budget.go and the tools of tools/. */
module Engine {
  import opened Common
  import opened Formula
  import opened Books
  import RateLimit

  // ---- Budget -----------------------------------------------------------------------------------

  /** The check of CheckAndReserve; a limit of 0 means unlimited. */
  predicate Admits(c: Counter, estimate: int) {
    c.limit > 0 ==> c.limit - c.spent >= estimate
  }

  /** CheckAndReserve: checks and records a reservation, deducts nothing. */
  function Reserve(b: Books, estimate: int): Option<(Books, Option<Id>)> {
    if estimate <= 0 || b.counter.None? then Some((b, None))
    else if !Admits(b.counter.value, estimate) then None
    else Some((b.(reservations := b.reservations[b.next := Reservation(estimate, Reserved)], next := b.next + 1),
               Some(b.next)))
  }

  function SetReservation(b: Books, id: Option<Id>, status: ReservationStatus): Books {
    if id.Some? && id.value in b.reservations
    then b.(reservations := b.reservations[id.value := b.reservations[id.value].(status := status)])
    else b
  }

  /** RecordSpend: the actual deduction. */
  function RecordSpend(b: Books, estimate: int, reservation: Option<Id>, logId: Id): Books {
    if estimate <= 0 then b
    else SetReservation(b.(counter := Charge(b.counter, estimate)), reservation, Settled(logId))
  }

  function Charge(c: Option<Counter>, amount: int): Option<Counter> {
    if c.None? then None else Some(c.value.(spent := c.value.spent + amount))
  }

  /** Release: subtracts a positive amount, down to zero at least. */
  function Refund(c: Option<Counter>, amount: int): Option<Counter> {
    if c.None? || amount <= 0 then c
    else Some(c.value.(spent := if c.value.spent > amount then c.value.spent - amount else 0))
  }

  /** EnsureCounter: an existing counter is left as it is. */
  function EnsureCounter(b: Books, limit: int): Books {
    if b.counter.Some? then b else b.(counter := Some(Counter(limit, 0)))
  }

  /** RebuildFromAuditLog; without a counter row it fails and changes nothing. */
  function Rebuild(b: Books): Books {
    if b.counter.None? then b
    else b.(counter := Some(b.counter.value.(spent := RebuiltSpend(b.logs, b.ledger))))
  }

  // ---- Calls ------------------------------------------------------------------------------------

  datatype DraftTarget = ByDraft(draft: Id) | ByLog(log: Id) | NoTarget

  datatype Effects = Effects(tokens: int, cost: int, currency: string)

  /** A tool with its parameters. Other stands for any further tool satisfying the Tool interface whose side effects
    * touch none of these tables: whether its preconditions and logic succeed, its estimate, and its effects. */
  datatype Call =
    | CallPropose(agent: Id, units: int, costCents: Option<real>)
    | CallApprove(agent: Id, target: DraftTarget, units: int, ratio: real, costCents: Option<real>)
    | CallReject(agent: Id, logId: Id)
    | CallApproveAccess(agent: Id, request: Id)
    | CallRejectAccess(agent: Id, request: Id)
    | CallOther(agent: Id, name: string, clause: bool, permitted: bool, succeeds: bool, estimate: int, effects: Effects)

  function ToolOf(call: Call): ToolName {
    match call
    case CallPropose(_, _, _) => ProposePassage
    case CallApprove(_, _, _, _, _) => ApproveDraft
    case CallReject(_, _) => RejectDraft
    case CallApproveAccess(_, _) => ApproveAccess
    case CallRejectAccess(_, _) => RejectAccess
    case CallOther(_, name, _, _, _, _, _) => OtherTool(name)
  }

  predicate IsClause(call: Call) {
    call.CallPropose? || call.CallApprove? || (call.CallOther? && call.clause)
  }

  /** The tools of the repository leave cost_delta to the engine's fallback. */
  predicate LeavesCostToEngine(call: Call) {
    call.CallOther? ==> call.effects.cost == 0
  }

  function Charged(costCents: Option<real>, placeholder: int): int {
    if costCents.Some? && costCents.value >= 0.0 then costCents.value.Floor else placeholder
  }

  /** resolveCost. */
  function Estimate(call: Call): int {
    match call
    case CallPropose(_, _, cost) => Charged(cost, 10)
    case CallApprove(_, _, _, _, cost) => Charged(cost, 5)
    case CallOther(_, _, _, _, _, estimate, _) => estimate
    case _ => 0
  }

  predicate IsActive(b: Books, agent: Id) {
    agent in b.members && b.members[agent].status == MemberActive
  }

  predicate IsOwner(b: Books, agent: Id) {
    agent in b.members && b.members[agent].isOwner
  }

  predicate IsPending(b: Books, request: Id) {
    request in b.requests && b.requests[request].status == Pending
  }

  /** Step 2, CheckPreconditions. */
  predicate Permitted(b: Books, call: Call) {
    match call
    case CallPropose(_, units, _) => b.state == ACTIVE && units > 0
    case CallApprove(agent, target, _, _, _) => b.state == ACTIVE && IsOwner(b, agent) && target != NoTarget
    case CallReject(agent, logId) => IsOwner(b, agent) && IsConfirmed(b.ledger, logId)
    case CallApproveAccess(agent, request) => IsOwner(b, agent) && IsPending(b, request)
    case CallRejectAccess(agent, request) => IsOwner(b, agent) && IsPending(b, request)
    case CallOther(_, _, _, permitted, _, _, _) => permitted
  }

  /** What Step 3 hands to the later steps. */
  datatype Work =
    | Nothing
    | Drafted(draft: Id)
    | Claimed(draft: Id, proposer: Id, units: int, ratio: real)
    | ToReverse(logId: Id, cost: int)
    | ToApprove(request: Id)
    | ToReject(request: Id)

  function ResolveDraft(b: Books, target: DraftTarget): Option<Id> {
    match target
    case ByDraft(d) => Some(d)
    case ByLog(l) =>
      var proposer := AgentOfLog(b.logs, l);
      if proposer.None? then None else OldestDraft(b.pending, proposer.value)
    case NoTarget => None
  }

  /** Step 3, ExecuteLogic; approve_draft deletes the pending row here. */
  function Execute(b: Books, call: Call): Option<(Books, Work)> {
    match call
    case CallPropose(_, _, _) => Some((b.(next := b.next + 1), Drafted(b.next)))
    case CallApprove(_, target, units, ratio, _) =>
      if units <= 0 then None
      else
        var draft := ResolveDraft(b, target);
        if draft.None? || draft.value !in b.pending then None
        else Some((b.(pending := b.pending - {draft.value}),
                   Claimed(draft.value, b.pending[draft.value], units, if ratio == 0.0 then 1.0 else ratio)))
    case CallReject(_, logId) => Some((b, ToReverse(logId, CostOfLog(b.logs, logId))))
    case CallApproveAccess(_, request) => Some((b, ToApprove(request)))
    case CallRejectAccess(_, request) => Some((b, ToReject(request)))
    case CallOther(_, _, _, _, succeeds, _, _) => if succeeds then Some((b, Nothing)) else None
  }

  function TierMultiplier(b: Books, agent: Id): real {
    if agent in b.members && b.members[agent].tier.Some? && b.members[agent].tier.value in b.tiers
    then b.tiers[b.members[agent].tier.value].multiplier else 1.0
  }

  /** tokens.Calculate. */
  function Calculate(units: int, multiplier: real, ratio: real): int {
    Round(units as real * multiplier * ratio)
  }

  /** The award: the configured rule when it evaluates, the fixed formula otherwise. */
  function AwardFor(b: Books, proposer: Id, units: int, ratio: real): int {
    var multiplier := TierMultiplier(b, proposer);
    if b.rule.None? then Calculate(units, multiplier, ratio)
    else
      var v := Evaluate(b.rule.value, Vars(units, ratio, multiplier, 0));
      if v.Ok? then v.value else Calculate(units, multiplier, ratio)
  }

  /** Step 4: the tool's effects, with the engine's cost and currency fallbacks. */
  function FinalEffects(b: Books, call: Call, work: Work): Effects {
    var own := if call.CallOther? then call.effects
               else Effects(if work.Claimed? then AwardFor(b, work.proposer, work.units, work.ratio) else 0, 0, "");
    Effects(own.tokens,
            if own.cost == 0 && Estimate(call) > 0 then Estimate(call) else own.cost,
            if own.currency == "" then "USD" else own.currency)
  }

  function BudgetCurrency(b: Books): string {
    if b.currency == "" then "USD" else b.currency
  }

  function AppendLog(b: Books, call: Call, result: LogResult, tokens: int, cost: int): Books {
    b.(logs := b.logs + [LogRow(b.next, call.agent, ToolOf(call), result, tokens, cost)], next := b.next + 1)
  }

  /** logRejection. */
  function LogRefusal(b: Books, call: Call): Books {
    AppendLog(b, call, Refusal, 0, 0)
  }

  /** The database statement that fails, if any: the audit insert, the first statement of Step 6, the refund at the
    * end of reject_draft's Step 6, or the charge of Step 7. */
  datatype Fault = NoFault | LogFails | ApplyFails | RefundFails | SettleFails

  predicate HasPlatform(b: Books, platform: PlatformId) {
    exists a :: a in b.members && b.members[a].platform == platform
  }

  /** ApproveAccessRequest: one transaction, rolled back as a whole. */
  function ApproveRequest(b: Books, request: Id, logId: Id): Option<Books> {
    if !IsPending(b, request) then None
    else
      var r := b.requests[request];
      if r.platform !in b.identities || r.tier !in b.tiers || HasPlatform(b, r.platform) then None
      else
        var fee := b.tiers[r.tier].entryFee;
        Some(b.(members := b.members[b.next := Member(r.platform, Some(r.tier), false, MemberActive)],
                requests := b.requests[request := r.(status := Approved(logId))],
                ledger := if fee > 0 then Post(b.ledger, Fee(b.next, fee, request, logId)) else b.ledger,
                next := b.next + 1))
  }

  /** RejectAccessRequest. */
  function RejectRequest(b: Books, request: Id, logId: Id): Option<Books> {
    if !IsPending(b, request) then None
    else Some(b.(requests := b.requests[request := b.requests[request].(status := Rejected(logId))]))
  }

  /** Step 6, ApplySideEffects: the resulting rows and whether it succeeded. */
  function Apply(b: Books, call: Call, work: Work, award: int, logId: Id, fault: Fault): (Books, bool) {
    if fault == ApplyFails then (b, false)
    else
      match work
      case Nothing => (b, true)
      case Drafted(draft) => (b.(pending := b.pending[draft := call.agent]), true)
      case Claimed(draft, proposer, _, _) => (b.(ledger := Post(b.ledger, Award(proposer, award, draft, logId))), true)
      case ToReverse(target, cost) =>
        var flipped := b.(ledger := Post(b.ledger, Reversal(target)));
        if cost > 0 && fault == RefundFails then (flipped, false)
        else (flipped.(counter := Refund(b.counter, cost)), true)
      case ToApprove(request) =>
        var approved := ApproveRequest(b, request, logId);
        if approved.Some? then (approved.value, true) else (b, false)
      case ToReject(request) =>
        var rejected := RejectRequest(b, request, logId);
        if rejected.Some? then (rejected.value, true) else (b, false)
  }

  // ---- Run --------------------------------------------------------------------------------------

  /** How a run ended: refused before the success row was committed, failed in Step 6 or in Step 7 after it was, or
    * completed. */
  datatype Outcome =
    | Refused
    | Aborted(logId: Id)
    | Unsettled(logId: Id)
    | Completed(logId: Id, tokens: int, cost: int)

  /** Steps 5 to 7. */
  function Commit(b: Books, call: Call, work: Work, effects: Effects, reservation: Option<Id>, fault: Fault): (Books, Outcome) {
    var logId := b.next;
    var (applied, ok) := Apply(AppendLog(b, call, Success, effects.tokens, effects.cost),
                               call, work, effects.tokens, logId, fault);
    if !ok then (SetReservation(applied, reservation, Released), Aborted(logId))
    else if fault == SettleFails && Estimate(call) > 0 then (applied, Unsettled(logId))
    else (RecordSpend(applied, Estimate(call), reservation, logId), Completed(logId, effects.tokens, effects.cost))
  }

  /** Steps 3 to 7, after the budget gate. */
  function Perform(b: Books, call: Call, reservation: Option<Id>, fault: Fault): (Books, Outcome) {
    match Execute(b, call)
    case None => (LogRefusal(SetReservation(b, reservation, Released), call), Refused)
    case Some((executed, work)) =>
      var effects := FinalEffects(executed, call, work);
      if effects.cost > 0 && effects.currency != BudgetCurrency(b) then
        (LogRefusal(SetReservation(executed, reservation, Released), call), Refused)
      else if fault == LogFails then
        (SetReservation(executed, reservation, Released), Refused)
      else
        Commit(executed, call, work, effects, reservation, fault)
  }

  /** Steps 2 to 7. */
  function Admitted(b: Books, call: Call, fault: Fault): (Books, Outcome) {
    if !Permitted(b, call) then (LogRefusal(b, call), Refused)
    else
      match Reserve(b, Estimate(call))
      case None => (LogRefusal(b, call), Refused)
      case Some((reserved, reservation)) => Perform(reserved, call, reservation, fault)
  }

  /** Step 1.5, counted for clause tools only. */
  function Gate(b: Books, call: Call, now: int, prune: bool): (Books, bool) {
    if !IsClause(call) then (b, true)
    else
      var (buckets, ok) := RateLimit.CheckAndIncrement(b.buckets, b.hourlyLimit, call.agent, now, prune);
      (b.(buckets := buckets), ok)
  }

  /** Engine.Run. */
  function Run(b: Books, call: Call, now: int, prune: bool, fault: Fault): (Books, Outcome) {
    if !IsActive(b, call.agent) then (b, Refused)
    else
      var (gated, ok) := Gate(b, call, now, prune);
      if !ok then (LogRefusal(gated, call), Refused)
      else Admitted(gated, call, fault)
  }
}
