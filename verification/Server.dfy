/** The server over one covenant's tables: each method does what its Go counterpart does to the rows, one statement at a
  * time, and is specified by the functions of Engine and History. */
module Server {
  import opened Common
  import opened Formula
  import opened Books
  import RateLimit
  import Engine
  import History

  /** A run from Step 4 on. */
  function AfterLogic(b: Books, call: Engine.Call, work: Engine.Work, reservation: Option<Id>, fault: Engine.Fault): (Books, Engine.Outcome) {
    var effects := Engine.FinalEffects(b, call, work);
    if effects.cost > 0 && effects.currency != Engine.BudgetCurrency(b) then
      (Engine.LogRefusal(Engine.SetReservation(b, reservation, Released), call), Engine.Refused)
    else if fault == Engine.LogFails then (Engine.SetReservation(b, reservation, Released), Engine.Refused)
    else Engine.Commit(b, call, work, effects, reservation, fault)
  }

  lemma PerformSplits(b: Books, call: Engine.Call, reservation: Option<Id>, fault: Engine.Fault)
    ensures Engine.Perform(b, call, reservation, fault)
         == match Engine.Execute(b, call)
            case None => (Engine.LogRefusal(Engine.SetReservation(b, reservation, Released), call), Engine.Refused)
            case Some((executed, work)) => AfterLogic(executed, call, work, reservation, fault)
  {
    if Engine.Execute(b, call).Some? {
      assert Engine.Execute(b, call).value.0.currency == b.currency;
    }
    hide Engine.Execute, Engine.Commit, Engine.LogRefusal, Engine.SetReservation, Engine.FinalEffects;
  }

  class Tables {
    var state: Lifecycle
    var currency: string
    var rule: Option<Rule>
    var hourlyLimit: int
    var buckets: RateLimit.Buckets
    var identities: set<PlatformId>
    var members: map<Id, Member>
    var tiers: map<TierId, Tier>
    var requests: map<Id, Request>
    var logs: seq<LogRow>
    var ledger: seq<LedgerRow>
    var pending: map<Id, Id>
    var counter: Option<Counter>
    var reservations: map<Id, Reservation>
    var next: Id

    /** The rows as one value. */
    function View(): Books
      reads this
    {
      Books(state, currency, rule, hourlyLimit, buckets, identities, members, tiers, requests, logs, ledger, pending,
            counter, reservations, next)
    }

    /** A covenant in DRAFT with its owner as only member. */
    constructor (currency: string, hourlyLimit: int, owner: PlatformId)
      ensures state == DRAFT && this.currency == currency && this.hourlyLimit == hourlyLimit && rule == None
      ensures logs == [] && ledger == [] && pending == map[] && requests == map[] && tiers == map[] && buckets == map[]
      ensures counter == None && reservations == map[] && identities == {owner}
      ensures members == map[0 := Member(owner, None, true, MemberActive)] && next == 1
    {
      state, this.currency, rule, this.hourlyLimit := DRAFT, currency, None, hourlyLimit;
      buckets, identities, tiers, requests := map[], {owner}, map[], map[];
      members := map[0 := Member(owner, None, true, MemberActive)];
      logs, ledger, pending, counter, reservations, next := [], [], map[], None, map[], 1;
    }

    method FreshId() returns (id: Id)
      modifies this`next
      ensures id == old(next) && next == id + 1
    {
      id := next;
      next := next + 1;
    }

    // ---- internal/budget/budget.go ----------------------------------------------------------------

    method EnsureCounter(limit: int)
      modifies this`counter
      ensures View() == Engine.EnsureCounter(old(View()), limit)
    {
      if counter.None? {
        counter := Some(Counter(limit, 0));
      }
    }

    method CheckAndReserve(estimate: int) returns (ok: bool, reservation: Option<Id>)
      modifies this
      ensures ok <==> Engine.Reserve(old(View()), estimate).Some?
      ensures ok ==> View() == Engine.Reserve(old(View()), estimate).value.0 && reservation == Engine.Reserve(old(View()), estimate).value.1
      ensures !ok ==> View() == old(View()) && reservation == None
    {
      if estimate <= 0 {
        return true, None;
      }
      if counter.None? {
        return true, None;
      }
      if counter.value.limit > 0 && counter.value.limit - counter.value.spent < estimate {
        return false, None;
      }
      var id := FreshId();
      reservations := reservations[id := Reservation(estimate, Reserved)];
      return true, Some(id);
    }

    /** The counter is charged; the update of the reservation, whose error is discarded, may be lost. */
    method RecordSpend(estimate: int, reservation: Option<Id>, logId: Id, lost: bool)
      modifies this`counter, this`reservations
      ensures View() == Engine.RecordSpend(old(View()), estimate, if lost then None else reservation, logId)
    {
      if estimate <= 0 {
        return;
      }
      if counter.Some? {
        counter := Some(counter.value.(spent := counter.value.spent + estimate));
      }
      if reservation.Some? && !lost && reservation.value in reservations {
        reservations := reservations[reservation.value := reservations[reservation.value].(status := Settled(logId))];
      }
    }

    method Release(amount: int)
      modifies this`counter
      ensures View() == old(View()).(counter := Engine.Refund(old(counter), amount))
    {
      if amount <= 0 {
        return;
      }
      if counter.Some? {
        var left := counter.value.spent - amount;
        if left < 0 {
          left := 0;
        }
        counter := Some(counter.value.(spent := left));
      }
    }

    /** The error of the update is discarded: it may be lost. */
    method ReleaseReservation(reservation: Option<Id>, lost: bool)
      modifies this`reservations
      ensures View() == Engine.SetReservation(old(View()), if lost then None else reservation, Released)
    {
      if reservation.None? {
        return;
      }
      if !lost && reservation.value in reservations {
        reservations := reservations[reservation.value := reservations[reservation.value].(status := Released)];
      }
    }

    /** Reads the total, then writes it: two statements (module Reconciliation). */
    method RebuildFromAuditLog() returns (total: int, ok: bool)
      modifies this`counter
      ensures View() == Engine.Rebuild(old(View()))
      ensures ok <==> old(counter).Some?
      ensures total == RebuiltSpend(logs, ledger)
    {
      total := RebuiltSpend(logs, ledger);
      ok := counter.Some?;
      if ok {
        counter := Some(counter.value.(spent := total));
      }
    }

    // ---- internal/ratelimit/ratelimit.go ----------------------------------------------------------

    method CheckAndIncrement(agent: Id, now: int, prune: bool) returns (ok: bool)
      modifies this`buckets
      ensures var r := RateLimit.CheckAndIncrement(old(buckets), hourlyLimit, agent, now, prune); buckets == r.0 && ok == r.1
    {
      if hourlyLimit <= 0 {
        return true;
      }
      var key := (agent, RateLimit.Window(now));
      if key in buckets {
        if buckets[key] >= hourlyLimit {
          return false;
        }
        buckets := buckets[key := buckets[key] + 1];
      } else {
        buckets := buckets[key := 1];
      }
      if prune {
        buckets := RateLimit.Prune(buckets, now);
      }
      return true;
    }

    // ---- internal/audit/audit.go, internal/tokens/tokens.go ----------------------------------------

    method LogEvent(call: Engine.Call, result: LogResult, tokens: int, cost: int) returns (logId: Id)
      modifies this
      ensures View() == Engine.AppendLog(old(View()), call, result, tokens, cost) && logId == old(View()).next
    {
      logId := FreshId();
      logs := logs + [LogRow(logId, call.agent, Engine.ToolOf(call), result, tokens, cost)];
    }

    method LogRejection(call: Engine.Call)
      modifies this
      ensures View() == Engine.LogRefusal(old(View()), call)
    {
      var _ := LogEvent(call, Refusal, 0, 0);
    }

    /** Sums the agent's balance, then inserts the row: two statements, between which another run may act (module StaleSums). */
    method ConfirmContribution(agent: Id, logId: Id, ref: Id, delta: int)
      modifies this`ledger
      ensures ledger == Post(old(ledger), Award(agent, delta, ref, logId))
    {
      var balance := Balance(ledger, agent);
      ledger := ledger + [LedgerRow(agent, delta, balance + delta, Passage, ref, logId, Confirmed)];
    }

    method CreatePending(draft: Id, agent: Id)
      modifies this`pending
      ensures pending == old(pending)[draft := agent]
    {
      pending := pending[draft := agent];
    }

    method ReadPending(draft: Id) returns (proposer: Option<Id>)
      ensures proposer == if draft in pending then Some(pending[draft]) else None
    {
      if draft in pending {
        proposer := Some(pending[draft]);
      } else {
        proposer := None;
      }
    }

    /** Deletes the row whether or not it is still there. */
    method DeletePending(draft: Id)
      modifies this`pending
      ensures pending == old(pending) - {draft}
    {
      pending := pending - {draft};
    }

    /** Reads the pending row, then deletes it: two statements, between which another run may act (module Overlaps). */
    method ClaimPending(draft: Id) returns (proposer: Option<Id>)
      modifies this`pending
      ensures proposer == if draft in old(pending) then Some(old(pending)[draft]) else None
      ensures pending == old(pending) - {draft}
    {
      proposer := ReadPending(draft);
      if proposer.None? {
        assert pending == pending - {draft};
        return;
      }
      DeletePending(draft);
    }

    // ---- internal/covenant ------------------------------------------------------------------------

    method CreateAccessRequest(platform: PlatformId, tier: TierId) returns (request: Option<Id>)
      modifies this`identities, this`requests, this`next
      ensures View() == History.CreateRequest(old(View()), platform, tier)
      ensures request == if platform == "" || tier == "" || state != OPEN || tier !in tiers then None else Some(old(next))
    {
      if platform == "" || tier == "" || state != OPEN || tier !in tiers {
        return None;
      }
      identities := identities + {platform};
      var id := FreshId();
      requests := requests[id := Request(platform, tier, Pending)];
      return Some(id);
    }

    /** Everything is computed on local copies and written at once, or not at all: the transaction. */
    method ApproveAccessRequest(request: Id, logId: Id) returns (ok: bool)
      modifies this
      ensures ok <==> Engine.ApproveRequest(old(View()), request, logId).Some?
      ensures View() == if ok then Engine.ApproveRequest(old(View()), request, logId).value else old(View())
    {
      if request !in requests || requests[request].status != Pending {
        return false;
      }
      var r := requests[request];
      if r.platform !in identities || r.tier !in tiers {
        return false;
      }
      var fee := tiers[r.tier].entryFee;
      if HasPlatform(members, r.platform) {
        return false;
      }
      var agent := FreshId();
      members := members[agent := Member(r.platform, Some(r.tier), false, MemberActive)];
      requests := requests[request := r.(status := Approved(logId))];
      if fee > 0 {
        ledger := ledger + [LedgerRow(agent, -fee, -fee, EntryFee, request, logId, Confirmed)];
      }
      return true;
    }

    static predicate HasPlatform(members: map<Id, Member>, platform: PlatformId) {
      exists a :: a in members && members[a].platform == platform
    }

    method RejectAccessRequest(request: Id, logId: Id) returns (ok: bool)
      modifies this
      ensures ok <==> Engine.RejectRequest(old(View()), request, logId).Some?
      ensures View() == if ok then Engine.RejectRequest(old(View()), request, logId).value else old(View())
    {
      if request !in requests || requests[request].status != Pending {
        return false;
      }
      requests := requests[request := requests[request].(status := Rejected(logId))];
      return true;
    }

    method AddTier(id: TierId, terms: Tier) returns (ok: bool)
      modifies this`tiers
      ensures View() == History.Step(old(View()), History.AddTier(id, terms))
      ensures ok <==> terms.entryFee >= 0 && id !in old(tiers)
    {
      if terms.entryFee < 0 || id in tiers {
        return false;
      }
      tiers := tiers[id := terms];
      return true;
    }

    method Transition(target: Lifecycle) returns (ok: bool)
      modifies this`state
      ensures View() == History.Advance(old(View()), target)
      ensures ok ==> state == target && History.NextState(old(state)) == Some(target)
      ensures !ok ==> state == old(state)
    {
      if History.NextState(state) != Some(target) {
        return false;
      }
      if state == DRAFT && tiers == map[] {
        return false;
      }
      state := target;
      return true;
    }

    method Join(platform: PlatformId, tier: TierId) returns (agent: Option<Id>)
      modifies this`identities, this`members, this`next
      ensures View() == History.JoinCovenant(old(View()), platform, tier)
      ensures agent.Some? ==> agent.value == old(next) && agent.value in members
      ensures agent.None? ==> members == old(members)
    {
      if state != OPEN || tier !in tiers {
        return None;
      }
      if tiers[tier].maxSlots.Some? {
        var count := |set a | a in members && members[a].tier == Some(tier)|;
        if count >= tiers[tier].maxSlots.value {
          return None;
        }
      }
      identities := identities + {platform};
      if HasPlatform(members, platform) {
        return None;
      }
      var id := FreshId();
      members := members[id := Member(platform, Some(tier), false, MemberPending)];
      return Some(id);
    }

    // ---- tools/ -----------------------------------------------------------------------------------

    /** Step 3. approve_draft claims its draft here. */
    method ExecuteLogic(call: Engine.Call) returns (work: Option<Engine.Work>)
      modifies this
      ensures work.Some? <==> Engine.Execute(old(View()), call).Some?
      ensures work.Some? ==> View() == Engine.Execute(old(View()), call).value.0 && work.value == Engine.Execute(old(View()), call).value.1
      ensures work.None? ==> View() == old(View())
    {
      match call
      case CallPropose(_, _, _) =>
        var draft := FreshId();
        return Some(Engine.Drafted(draft));
      case CallApprove(_, target, units, ratio, _) =>
        if units <= 0 {
          return None;
        }
        var draft := Engine.ResolveDraft(View(), target);
        if draft.None? {
          return None;
        }
        var proposer := ClaimPending(draft.value);
        if proposer.None? {
          assert pending == old(pending);
          return None;
        }
        return Some(Engine.Claimed(draft.value, proposer.value, units, if ratio == 0.0 then 1.0 else ratio));
      case CallReject(_, logId) =>
        return Some(Engine.ToReverse(logId, CostOfLog(logs, logId)));
      case CallApproveAccess(_, request) =>
        return Some(Engine.ToApprove(request));
      case CallRejectAccess(_, request) =>
        return Some(Engine.ToReject(request));
      case CallOther(_, _, _, _, succeeds, _, _) =>
        return if succeeds then Some(Engine.Nothing) else None;
    }

    /** Step 4, with the fallbacks of the engine. */
    method CalculateSideEffects(call: Engine.Call, work: Engine.Work, estimate: int) returns (effects: Engine.Effects)
      requires estimate == Engine.Estimate(call)
      ensures effects == Engine.FinalEffects(View(), call, work)
    {
      effects := Engine.Effects(0, 0, "");
      if call.CallOther? {
        effects := call.effects;
      } else if work.Claimed? {
        var multiplier := 1.0;
        if work.proposer in members && members[work.proposer].tier.Some? && members[work.proposer].tier.value in tiers {
          multiplier := tiers[members[work.proposer].tier.value].multiplier;
        }
        var delta := Engine.Calculate(work.units, multiplier, work.ratio);
        if rule.Some? {
          var v := Evaluate(rule.value, Vars(work.units, work.ratio, multiplier, 0));
          if v.Ok? {
            delta := v.value;
          }
        }
        effects := effects.(tokens := delta);
      }
      if effects.cost == 0 && estimate > 0 {
        effects := effects.(cost := estimate);
      }
      if effects.currency == "" {
        effects := effects.(currency := "USD");
      }
    }

    /** The side effects of reject_draft: two statements, the second only for a positive cost. */
    method ReverseAndRefund(target: Id, cost: int, refundFails: bool) returns (ok: bool)
      modifies this
      ensures ok <==> cost <= 0 || !refundFails
      ensures View() == old(View()).(ledger := Post(old(ledger), Reversal(target)),
                                     counter := if ok then Engine.Refund(old(counter), cost) else old(counter))
    {
      ledger := Reverse(ledger, target);
      if cost > 0 {
        if refundFails {
          return false;
        }
        Release(cost);
      }
      return true;
    }

    /** Step 6, with the statement that fails, if any. */
    method ApplySideEffects(call: Engine.Call, work: Engine.Work, tokens: int, logId: Id, fault: Engine.Fault) returns (ok: bool)
      modifies this
      ensures View() == Engine.Apply(old(View()), call, work, tokens, logId, fault).0
      ensures ok == Engine.Apply(old(View()), call, work, tokens, logId, fault).1
    {
      hide Engine.ApproveRequest, Engine.RejectRequest, Balance, Reverse;
      if fault == Engine.ApplyFails {
        return false;
      }
      ok := true;
      match work
      case Nothing =>
      case Drafted(draft) => CreatePending(draft, call.agent);
      case Claimed(draft, proposer, _, _) => ConfirmContribution(proposer, logId, draft, tokens);
      case ToReverse(target, cost) =>
        ok := ReverseAndRefund(target, cost, fault == Engine.RefundFails);
      case ToApprove(request) => ok := ApproveAccessRequest(request, logId);
      case ToReject(request) => ok := RejectAccessRequest(request, logId);
    }

    // ---- internal/execution/execution.go ------------------------------------------------------------

    /** Steps 5 to 7. */
    method Commit(call: Engine.Call, work: Engine.Work, effects: Engine.Effects, estimate: int, reservation: Option<Id>,
                  fault: Engine.Fault) returns (outcome: Engine.Outcome)
      requires estimate == Engine.Estimate(call)
      modifies this
      ensures View() == Engine.Commit(old(View()), call, work, effects, reservation, fault).0
      ensures outcome == Engine.Commit(old(View()), call, work, effects, reservation, fault).1
    {
      hide View, Engine.Apply, Engine.SetReservation, Engine.RecordSpend, Engine.Estimate, Engine.AppendLog;
      var logId := LogEvent(call, Success, effects.tokens, effects.cost);
      var ok := ApplySideEffects(call, work, effects.tokens, logId, fault);
      if !ok {
        ReleaseReservation(reservation, false);
        return Engine.Aborted(logId);
      }
      if fault == Engine.SettleFails && estimate > 0 {
        return Engine.Unsettled(logId);
      }
      RecordSpend(estimate, reservation, logId, false);
      return Engine.Completed(logId, effects.tokens, effects.cost);
    }

    method ReleaseAndReject(call: Engine.Call, reservation: Option<Id>)
      modifies this
      ensures View() == Engine.LogRefusal(Engine.SetReservation(old(View()), reservation, Released), call)
    {
      hide View, Engine.SetReservation, Engine.LogRefusal;
      ReleaseReservation(reservation, false);
      LogRejection(call);
    }

    function Spendable(): string
      reads this
      ensures Spendable() == Engine.BudgetCurrency(View())
    {
      if currency == "" then "USD" else currency
    }

    /** Steps 4 to 7. */
    method Conclude(call: Engine.Call, work: Engine.Work, estimate: int, reservation: Option<Id>, fault: Engine.Fault)
      returns (outcome: Engine.Outcome)
      requires estimate == Engine.Estimate(call)
      modifies this
      ensures View() == AfterLogic(old(View()), call, work, reservation, fault).0
      ensures outcome == AfterLogic(old(View()), call, work, reservation, fault).1
    {
      hide View, Spendable, Engine.BudgetCurrency, Engine.FinalEffects, Engine.Commit, Engine.SetReservation, Engine.Estimate, Engine.LogRefusal;
      var effects := CalculateSideEffects(call, work, estimate);
      if effects.cost > 0 && effects.currency != Spendable() {
        ReleaseAndReject(call, reservation);
        return Engine.Refused;
      }
      if fault == Engine.LogFails {
        ReleaseReservation(reservation, false);
        return Engine.Refused;
      }
      outcome := Commit(call, work, effects, estimate, reservation, fault);
    }

    /** Steps 3 to 7, once the budget gate is passed. */
    method Perform(call: Engine.Call, estimate: int, reservation: Option<Id>, fault: Engine.Fault) returns (outcome: Engine.Outcome)
      requires estimate == Engine.Estimate(call)
      modifies this
      ensures View() == Engine.Perform(old(View()), call, reservation, fault).0
      ensures outcome == Engine.Perform(old(View()), call, reservation, fault).1
    {
      PerformSplits(View(), call, reservation, fault);
      hide View, AfterLogic, Engine.Execute, Engine.Perform, Engine.SetReservation, Engine.Estimate, Engine.LogRefusal;
      var work := ExecuteLogic(call);
      if work.None? {
        ReleaseAndReject(call, reservation);
        return Engine.Refused;
      }
      outcome := Conclude(call, work.value, estimate, reservation, fault);
    }

    /** Steps 2 to 7. */
    method Admit(call: Engine.Call, fault: Engine.Fault) returns (outcome: Engine.Outcome)
      modifies this
      ensures View() == Engine.Admitted(old(View()), call, fault).0
      ensures outcome == Engine.Admitted(old(View()), call, fault).1
    {
      hide Engine.Permitted, Engine.Reserve, Engine.Perform, Engine.Estimate, Engine.LogRefusal;
      if !Engine.Permitted(View(), call) {
        LogRejection(call);
        return Engine.Refused;
      }
      var estimate := Engine.Estimate(call);
      var ok, reservation := CheckAndReserve(estimate);
      if !ok {
        LogRejection(call);
        return Engine.Refused;
      }
      outcome := Perform(call, estimate, reservation, fault);
    }

    predicate MayExecute(agent: Id)
      reads this
      ensures MayExecute(agent) <==> Engine.IsActive(View(), agent)
    {
      agent in members && members[agent].status == MemberActive
    }

    /** Step 1.5. */
    method PassGate(call: Engine.Call, now: int, prune: bool) returns (ok: bool)
      modifies this
      ensures View() == Engine.Gate(old(View()), call, now, prune).0
      ensures ok == Engine.Gate(old(View()), call, now, prune).1
    {
      hide RateLimit.CheckAndIncrement;
      ok := true;
      if Engine.IsClause(call) {
        ok := CheckAndIncrement(call.agent, now, prune);
      }
    }

    /** Engine.Run: Steps 1 to 7. */
    method Run(call: Engine.Call, now: int, prune: bool, fault: Engine.Fault) returns (outcome: Engine.Outcome)
      modifies this
      ensures View() == Engine.Run(old(View()), call, now, prune, fault).0
      ensures outcome == Engine.Run(old(View()), call, now, prune, fault).1
    {
      hide View, Engine.Gate, Engine.Admitted, Engine.LogRefusal;
      if !MayExecute(call.agent) {
        return Engine.Refused;
      }
      var ok := PassGate(call, now, prune);
      if !ok {
        LogRejection(call);
        return Engine.Refused;
      }
      outcome := Admit(call, fault);
    }
  }
}
