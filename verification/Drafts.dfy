/** Each draft is awarded at most once, and what the order of steps costs a draft. */
module Drafts {
  import opened Common
  import opened Books
  import opened Engine
  import History
  import RateLimit
  import Formula

  predicate IsPassageOf(row: LedgerRow, draft: Id) {
    row.source == Passage && row.ref == draft
  }

  predicate Unawarded(ledger: seq<LedgerRow>, draft: Id) {
    forall i :: 0 <= i < |ledger| ==> !IsPassageOf(ledger[i], draft)
  }

  /** Every draft is pending, awarded once, or gone; and never two of these. */
  ghost predicate OnceEach(b: Books) {
    && (forall d :: d in b.pending ==> d < b.next && Unawarded(b.ledger, d))
    && (forall i :: 0 <= i < |b.ledger| && b.ledger[i].source == Passage ==> b.ledger[i].ref < b.next)
    && (forall i, j :: 0 <= i < j < |b.ledger| && b.ledger[i].source == Passage && b.ledger[j].source == Passage
                       ==> b.ledger[i].ref != b.ledger[j].ref)
  }

  /** A draft in hand: neither pending nor awarded. */
  ghost predicate InHand(b: Books, draft: Id) {
    draft < b.next && draft !in b.pending && Unawarded(b.ledger, draft)
  }

  ghost predicate WorkInHand(b: Books, work: Work) {
    match work
    case Drafted(d) => InHand(b, d)
    case Claimed(d, _, _, _) => InHand(b, d)
    case _ => true
  }

  /** The steps that write neither drafts nor awards. */
  ghost predicate SameDrafts(b: Books, b': Books) {
    b'.pending == b.pending && b'.ledger == b.ledger && b'.next >= b.next
  }

  lemma SameDraftsKeep(b: Books, b': Books, work: Work)
    requires SameDrafts(b, b')
    ensures OnceEach(b) ==> OnceEach(b')
    ensures WorkInHand(b, work) ==> WorkInHand(b', work)
  {
  }

  lemma ExecuteTakesDraft(b: Books, call: Call)
    requires OnceEach(b) && Execute(b, call).Some?
    ensures OnceEach(Execute(b, call).value.0) && WorkInHand(Execute(b, call).value.0, Execute(b, call).value.1)
  {
    hide AgentOfLog, CostOfLog;
  }

  lemma ReverseKeepsAwards(ledger: seq<LedgerRow>, target: Id, draft: Id)
    ensures Unawarded(ledger, draft) ==> Unawarded(Reverse(ledger, target), draft)
  {
  }

  lemma ApplyAwardsOnce(b: Books, call: Call, work: Work, tokens: int, logId: Id, fault: Fault)
    requires OnceEach(b) && WorkInHand(b, work)
    ensures OnceEach(Apply(b, call, work, tokens, logId, fault).0)
  {
    hide HasPlatform, Balance;
    var b' := Apply(b, call, work, tokens, logId, fault).0;
    forall d | d in b'.pending ensures d < b'.next && Unawarded(b'.ledger, d) {
      if d in b.pending {
        assert Unawarded(b.ledger, d);
      }
    }
  }

  lemma BookkeepingKeepsDrafts(b: Books, reservation: Option<Id>, status: ReservationStatus, estimate: int, logId: Id)
    ensures SameDrafts(b, SetReservation(b, reservation, status))
    ensures SameDrafts(b, RecordSpend(b, estimate, reservation, logId))
  {
  }

  lemma CommitAwardsOnce(b: Books, call: Call, work: Work, effects: Effects, reservation: Option<Id>, fault: Fault)
    requires OnceEach(b) && WorkInHand(b, work)
    ensures OnceEach(Commit(b, call, work, effects, reservation, fault).0)
  {
    var logged := AppendLog(b, call, Success, effects.tokens, effects.cost);
    SameDraftsKeep(b, logged, work);
    ApplyAwardsOnce(logged, call, work, effects.tokens, b.next, fault);
    hide Apply, OnceEach, WorkInHand, SetReservation, RecordSpend, SameDrafts, AppendLog, Estimate;
    var (applied, ok) := Apply(logged, call, work, effects.tokens, b.next, fault);
    BookkeepingKeepsDrafts(applied, reservation, Released, Estimate(call), b.next);
    SameDraftsKeep(applied, SetReservation(applied, reservation, Released), work);
    SameDraftsKeep(applied, RecordSpend(applied, Estimate(call), reservation, b.next), work);
  }

  lemma PerformAwardsOnce(b: Books, call: Call, reservation: Option<Id>, fault: Fault)
    requires OnceEach(b)
    ensures OnceEach(Perform(b, call, reservation, fault).0)
  {
    hide Commit, OnceEach, WorkInHand, FinalEffects, Execute;
    var released := SetReservation(b, reservation, Released);
    SameDraftsKeep(b, LogRefusal(released, call), Nothing);
    if Execute(b, call).Some? {
      var (executed, work) := Execute(b, call).value;
      ExecuteTakesDraft(b, call);
      var undone := SetReservation(executed, reservation, Released);
      SameDraftsKeep(executed, undone, work);
      SameDraftsKeep(undone, LogRefusal(undone, call), work);
      CommitAwardsOnce(executed, call, work, FinalEffects(executed, call, work), reservation, fault);
    }
  }

  lemma GatesKeepDrafts(b: Books, call: Call, now: int, prune: bool, gated: Books)
    requires gated == Gate(b, call, now, prune).0
    ensures SameDrafts(b, gated) && SameDrafts(gated, LogRefusal(gated, call))
    ensures Reserve(gated, Estimate(call)).Some? ==> SameDrafts(gated, Reserve(gated, Estimate(call)).value.0)
  {
  }

  lemma RunAwardsOnce(b: Books, call: Call, now: int, prune: bool, fault: Fault)
    requires OnceEach(b)
    ensures OnceEach(Run(b, call, now, prune, fault).0)
  {
    hide Perform, OnceEach, Permitted, Gate, Reserve, Estimate, LogRefusal, SameDrafts;
    var (gated, ok) := Gate(b, call, now, prune);
    GatesKeepDrafts(b, call, now, prune, gated);
    SameDraftsKeep(b, gated, Nothing);
    SameDraftsKeep(gated, LogRefusal(gated, call), Nothing);
    if Reserve(gated, Estimate(call)).Some? {
      var (reserved, reservation) := Reserve(gated, Estimate(call)).value;
      SameDraftsKeep(gated, reserved, Nothing);
      PerformAwardsOnce(reserved, call, reservation, fault);
    }
  }

  /** Main result: over any history, each draft yields at most one ledger row, and none while it is pending. */
  lemma {:induction false} EachDraftIsAwardedAtMostOnce(b: Books, ops: seq<History.Op>)
    requires OnceEach(b)
    ensures OnceEach(History.Replay(b, ops))
  {
    if ops != [] {
      var before, op := History.Replay(b, ops[..|ops| - 1]), ops[|ops| - 1];
      EachDraftIsAwardedAtMostOnce(b, ops[..|ops| - 1]);
      if op.RunTool? {
        RunAwardsOnce(before, op.call, op.now, op.prune, op.fault);
      } else {
        AdministrationKeepsDrafts(before, op);
        SameDraftsKeep(before, History.Step(before, op), Nothing);
      }
    }
  }

  lemma AdministrationKeepsDrafts(b: Books, op: History.Op)
    requires !op.RunTool?
    ensures SameDrafts(b, History.Step(b, op))
  {
    hide History.Step;
    History.AdministrationWrites(b, op);
  }

  // ---- When an approval loses its draft -----------------------------------------------------------------

  /** Neither pending nor awarded. */
  predicate Lost(b: Books, draft: Id) {
    draft !in b.pending && Unawarded(b.ledger, draft)
  }

  /** The run gets past Steps 1 to 2.5. */
  predicate IsAdmitted(b: Books, call: Call, now: int, prune: bool) {
    && IsActive(b, call.agent) && RateLimit.CheckAndIncrement(b.buckets, b.hourlyLimit, call.agent, now, prune).1
    && Permitted(b, call)
    && (Estimate(call) > 0 && b.counter.Some? ==> Admits(b.counter.value, Estimate(call)))
  }

  /** Its Step 3 claims this draft, named directly or found through a log. */
  predicate ClaimsDraft(b: Books, call: Call, draft: Id) {
    call.CallApprove? && call.units > 0 && ResolveDraft(b, call.target) == Some(draft)
  }

  /** After the claim: a charge in a currency the budget does not have, a failed log row, or a failed award. */
  predicate FailsAfterClaim(b: Books, call: Call, fault: Fault) {
    (Estimate(call) > 0 && BudgetCurrency(b) != "USD") || fault == LogFails || fault == ApplyFails
  }

  lemma StaysPending(b: Books, b': Books, draft: Id)
    requires SameDrafts(b, b')
    ensures Lost(b', draft) <==> Lost(b, draft)
  {
  }

  lemma CommitLosesIff(b: Books, call: Call, work: Work, effects: Effects, reservation: Option<Id>, fault: Fault, draft: Id)
    requires work.Claimed? && Unawarded(b.ledger, draft) && (draft !in b.pending <==> work.draft == draft)
    ensures Lost(Commit(b, call, work, effects, reservation, fault).0, draft) <==> work.draft == draft && fault == ApplyFails
  {
    hide SetReservation, RecordSpend, Estimate, Balance;
    var logged := AppendLog(b, call, Success, effects.tokens, effects.cost);
    var applied := Apply(logged, call, work, effects.tokens, b.next, fault).0;
    BookkeepingKeepsDrafts(applied, reservation, Released, Estimate(call), b.next);
    if fault != ApplyFails {
      assert IsPassageOf(applied.ledger[|b.ledger|], work.draft);
    }
  }

  /** An approval is charged its estimate, in USD. */
  lemma ApprovalEffects(b: Books, call: Call, work: Work)
    requires call.CallApprove?
    ensures var effects := FinalEffects(b, call, work); effects.currency == "USD" && (effects.cost > 0 <==> Estimate(call) > 0)
  {
    hide AwardFor;
  }

  lemma ClaimExecutes(b: Books, call: Call, draft: Id)
    requires call.CallApprove? && Execute(b, call).Some?
    ensures var (executed, work) := Execute(b, call).value;
            && work.Claimed? && executed == b.(pending := b.pending - {work.draft}) && work.draft in b.pending
            && (ClaimsDraft(b, call, draft) <==> work.draft == draft)
  {
    hide ResolveDraft;
  }

  lemma ClaimLosesIff(b: Books, call: Call, reservation: Option<Id>, fault: Fault, draft: Id)
    requires call.CallApprove? && draft in b.pending && Unawarded(b.ledger, draft) && Execute(b, call).Some?
    ensures Lost(Perform(b, call, reservation, fault).0, draft) <==> ClaimsDraft(b, call, draft) && FailsAfterClaim(b, call, fault)
  {
    hide FinalEffects, Commit, SetReservation, Estimate, Execute, ClaimsDraft, LogRefusal, Unawarded, SameDrafts;
    var (executed, work) := Execute(b, call).value;
    ClaimExecutes(b, call, draft);
    ApprovalEffects(executed, call, work);
    var undone := SetReservation(executed, reservation, Released);
    BookkeepingKeepsDrafts(executed, reservation, Released, 0, 0);
    SameDraftsMeans(executed, undone, draft);
    RefusalKeepsDrafts(undone, call);
    SameDraftsMeans(undone, LogRefusal(undone, call), draft);
    CommitLosesIff(executed, call, work, FinalEffects(executed, call, work), reservation, fault, draft);
  }

  lemma RefusalKeepsDrafts(b: Books, call: Call)
    ensures SameDrafts(b, LogRefusal(b, call))
  {
  }

  lemma PerformLosesIff(b: Books, call: Call, reservation: Option<Id>, fault: Fault, draft: Id)
    requires call.CallApprove? && draft in b.pending && Unawarded(b.ledger, draft)
    ensures Lost(Perform(b, call, reservation, fault).0, draft) <==> ClaimsDraft(b, call, draft) && FailsAfterClaim(b, call, fault)
  {
    if Execute(b, call).Some? {
      ClaimLosesIff(b, call, reservation, fault, draft);
    } else {
      BookkeepingKeepsDrafts(b, reservation, Released, 0, 0);
      hide ResolveDraft, SetReservation, Estimate;
    }
  }

  lemma GatesKeepClaims(b: Books, call: Call, now: int, prune: bool, draft: Id, fault: Fault)
    requires call.CallApprove?
    ensures var gated := Gate(b, call, now, prune).0;
            && Gate(b, call, now, prune).1 == RateLimit.CheckAndIncrement(b.buckets, b.hourlyLimit, call.agent, now, prune).1
            && (Permitted(gated, call) <==> Permitted(b, call)) && gated.counter == b.counter
            && (ClaimsDraft(gated, call, draft) <==> ClaimsDraft(b, call, draft))
            && (FailsAfterClaim(gated, call, fault) <==> FailsAfterClaim(b, call, fault))
  {
    hide RateLimit.CheckAndIncrement, Estimate;
  }

  lemma ReserveKeepsClaims(b: Books, call: Call, draft: Id, fault: Fault)
    requires call.CallApprove?
    ensures Reserve(b, Estimate(call)).Some? <==> (Estimate(call) > 0 && b.counter.Some? ==> Admits(b.counter.value, Estimate(call)))
    ensures Reserve(b, Estimate(call)).Some? ==>
              var reserved := Reserve(b, Estimate(call)).value.0;
              && SameDrafts(b, reserved)
              && (ClaimsDraft(reserved, call, draft) <==> ClaimsDraft(b, call, draft))
              && (FailsAfterClaim(reserved, call, fault) <==> FailsAfterClaim(b, call, fault))
  {
    hide Estimate;
  }

  lemma NotLostWhilePending(b: Books, b': Books, draft: Id)
    requires SameDrafts(b, b') && draft in b.pending
    ensures !Lost(b', draft)
  {
  }

  /** approve_draft deletes the pending row in Step 3. A pending draft is lost, neither pending nor awarded, exactly when an
    * approval of it is admitted and claims it, and then is refused for its currency, or its log row or its award fails. */
  lemma DraftIsLostIff(b: Books, call: Call, now: int, prune: bool, fault: Fault, draft: Id)
    requires OnceEach(b) && draft in b.pending && call.CallApprove?
    ensures Lost(Run(b, call, now, prune, fault).0, draft)
       <==> IsAdmitted(b, call, now, prune) && ClaimsDraft(b, call, draft) && FailsAfterClaim(b, call, fault)
  {
    hide Perform, Gate, Reserve, Estimate, Permitted, IsActive, LogRefusal, ClaimsDraft, FailsAfterClaim, Lost, RateLimit.CheckAndIncrement,
         Unawarded, SameDrafts;
    var gated := Gate(b, call, now, prune).0;
    GatesKeepClaims(b, call, now, prune, draft, fault);
    GatesKeepDrafts(b, call, now, prune, gated);
    SameDraftsMeans(b, gated, draft);
    NotLostWhilePending(b, b, draft) by { SameDraftsSelf(b); }
    NotLostWhilePending(gated, LogRefusal(gated, call), draft);
    ReserveKeepsClaims(gated, call, draft, fault);
    if Reserve(gated, Estimate(call)).Some? {
      var (reserved, reservation) := Reserve(gated, Estimate(call)).value;
      SameDraftsMeans(gated, reserved, draft);
      PerformLosesIff(reserved, call, reservation, fault, draft);
    }
  }

  /** An owner of an active covenant whose budget is unlimited. */
  predicate MayApproveAll(b: Books, owner: Id) {
    b.state == ACTIVE && IsActive(b, owner) && IsOwner(b, owner) && (b.counter.Some? ==> b.counter.value.limit <= 0)
  }

  ghost predicate LosesDraft(b: Books, call: Call, now: int, fault: Fault, draft: Id) {
    Lost(Run(b, call, now, false, fault).0, draft)
  }

  /** Every pending draft can be lost: its award fails; or nothing fails and the budget is in another currency. */
  lemma DraftsCanBeLost(b: Books, owner: Id, draft: Id)
    requires OnceEach(b) && draft in b.pending && MayApproveAll(b, owner)
    ensures exists call, now :: LosesDraft(b, call, now, ApplyFails, draft)
    ensures BudgetCurrency(b) != "USD" ==> exists call, now :: LosesDraft(b, call, now, NoFault, draft)
  {
    var call := CallApprove(owner, ByDraft(draft), 1, 1.0, None);
    var now := RateLimit.AcceptsLater(b.buckets, b.hourlyLimit, owner);
    assert IsAdmitted(b, call, now, false) && ClaimsDraft(b, call, draft) && FailsAfterClaim(b, call, ApplyFails);
    assert FailsAfterClaim(b, call, NoFault) <==> BudgetCurrency(b) != "USD";
    hide Run, OnceEach, Lost, IsAdmitted, ClaimsDraft, FailsAfterClaim, RateLimit.CheckAndIncrement;
    DraftIsLostIff(b, call, now, false, ApplyFails, draft);
    DraftIsLostIff(b, call, now, false, NoFault, draft);
    assert LosesDraft(b, call, now, ApplyFails, draft);
    if BudgetCurrency(b) != "USD" {
      assert LosesDraft(b, call, now, NoFault, draft);
    }
  }

  lemma SameDraftsSelf(b: Books)
    ensures SameDrafts(b, b)
  {
  }

  lemma SameDraftsMeans(b: Books, b': Books, draft: Id)
    requires SameDrafts(b, b')
    ensures b'.pending == b.pending && (Unawarded(b'.ledger, draft) <==> Unawarded(b.ledger, draft))
  {
  }

  // ---- What an approval pays ----------------------------------------------------------------------

  /** The multiplier of an agent's tier, 1 without one. */
  predicate IsMultiplier(b: Books, agent: Id, multiplier: real) {
    if agent in b.members && b.members[agent].tier.Some? && b.members[agent].tier.value in b.tiers
    then multiplier == b.tiers[b.members[agent].tier.value].multiplier else multiplier == 1.0
  }

  /** What the configured rule means where it means something, else units times multiplier times ratio. */
  ghost predicate IsPrice(rule: Option<Formula.Rule>, units: int, ratio: real, multiplier: real, price: real) {
    var vars := Formula.Vars(units, ratio, multiplier, 0);
    if rule.Some? && Formula.HasMeaning(rule.value.formula, vars, rule.value.baseRate)
    then Formula.Means(rule.value.formula, vars, rule.value.baseRate, price)
    else price == units as real * multiplier * ratio
  }

  /** The whole number of tokens nearest to the price at the agent's tier, the farther from zero of two. */
  ghost predicate IsPriced(b: Books, agent: Id, units: int, ratio: real, tokens: int) {
    exists multiplier, price ::
      IsMultiplier(b, agent, multiplier) && IsPrice(b.rule, units, ratio, multiplier, price) && Formula.IsNearestWhole(price, tokens as real)
  }

  lemma AwardIsPriced(b: Books, proposer: Id, units: int, ratio: real)
    ensures IsPriced(b, proposer, units, ratio, AwardFor(b, proposer, units, ratio))
  {
    var multiplier, award := TierMultiplier(b, proposer), AwardFor(b, proposer, units, ratio);
    assert IsMultiplier(b, proposer, multiplier);
    var vars := Formula.Vars(units, ratio, multiplier, 0);
    hide IsMultiplier, TierMultiplier, Formula.Means, Formula.IsNearestWhole, Formula.Round;
    if b.rule.Some? {
      Formula.EvaluateIsNearest(b.rule.value, vars);
    }
    if b.rule.Some? && Formula.HasMeaning(b.rule.value.formula, vars, b.rule.value.baseRate) {
      var price :| Formula.Means(b.rule.value.formula, vars, b.rule.value.baseRate, price);
      assert IsPrice(b.rule, units, ratio, multiplier, price);
    } else {
      var price := units as real * multiplier * ratio;
      Formula.RoundIsNearest(price);
      assert IsPrice(b.rule, units, ratio, multiplier, price);
    }
  }

  /** One more row: the priced award of a pending draft to its proposer, with the new balance. */
  ghost predicate Pays(b: Books, ledger': seq<LedgerRow>, call: Call)
    requires call.CallApprove? && call.target.ByDraft?
  {
    && call.target.draft in b.pending && |ledger'| == |b.ledger| + 1 && ledger'[..|b.ledger|] == b.ledger
    && var proposer, row := b.pending[call.target.draft], ledger'[|b.ledger|];
       && row == LedgerRow(proposer, row.delta, Balance(b.ledger, proposer) + row.delta, Passage, call.target.draft, row.logId, Confirmed)
       && IsPriced(b, proposer, call.units, if call.ratio == 0.0 then 1.0 else call.ratio, row.delta)
  }

  /** Steps that leave prices, drafts and the ledger alone. */
  ghost predicate SamePrices(b: Books, b': Books) {
    b'.pending == b.pending && b'.ledger == b.ledger && b'.rule == b.rule && b'.members == b.members && b'.tiers == b.tiers
  }

  lemma BookkeepingKeepsPrices(b: Books, call: Call, reservation: Option<Id>, status: ReservationStatus, logId: Id)
    ensures SamePrices(b, SetReservation(b, reservation, status))
    ensures SamePrices(b, RecordSpend(b, Estimate(call), reservation, logId))
  {
    hide Estimate;
  }

  lemma GatesKeepPrices(b: Books, call: Call, now: int, prune: bool)
    ensures SamePrices(b, Gate(b, call, now, prune).0)
  {
    hide RateLimit.CheckAndIncrement;
  }

  lemma ReserveKeepsPrices(b: Books, estimate: int)
    requires Reserve(b, estimate).Some?
    ensures SamePrices(b, Reserve(b, estimate).value.0)
  {
  }

  lemma PriceDependsOn(b: Books, b': Books, agent: Id, units: int, ratio: real, tokens: int)
    requires b'.rule == b.rule && b'.members == b.members && b'.tiers == b.tiers && IsPriced(b', agent, units, ratio, tokens)
    ensures IsPriced(b, agent, units, ratio, tokens)
  {
    hide IsPrice, Formula.IsNearestWhole;
    var multiplier, price :|
      IsMultiplier(b', agent, multiplier) && IsPrice(b'.rule, units, ratio, multiplier, price) && Formula.IsNearestWhole(price, tokens as real);
    assert IsMultiplier(b, agent, multiplier);
  }

  lemma SamePricesPay(b: Books, b': Books, ledger': seq<LedgerRow>, call: Call)
    requires call.CallApprove? && call.target.ByDraft? && SamePrices(b, b') && Pays(b', ledger', call)
    ensures Pays(b, ledger', call)
  {
    hide IsPriced, Balance;
    PriceDependsOn(b, b', b.pending[call.target.draft], call.units, if call.ratio == 0.0 then 1.0 else call.ratio, ledger'[|b.ledger|].delta);
  }

  lemma CommitPays(b: Books, call: Call, work: Work, effects: Effects, reservation: Option<Id>, fault: Fault)
    requires work.Claimed?
    ensures var (b', outcome) := Commit(b, call, work, effects, reservation, fault);
            (outcome.Completed? ==> outcome.tokens == effects.tokens) &&
            (outcome.Completed? || outcome.Unsettled? ==>
               b'.ledger == b.ledger + [LedgerRow(work.proposer, effects.tokens, Balance(b.ledger, work.proposer) + effects.tokens,
                                                  Passage, work.draft, outcome.logId, Confirmed)])
  {
    hide SetReservation, RecordSpend, Estimate, Balance;
    var applied := Apply(AppendLog(b, call, Success, effects.tokens, effects.cost), call, work, effects.tokens, b.next, fault).0;
    BookkeepingKeepsPrices(applied, call, reservation, Released, b.next);
  }

  ghost predicate PaysUnder(b: Books, ledger': seq<LedgerRow>, call: Call, outcome: Outcome)
    requires call.CallApprove? && call.target.ByDraft?
  {
    outcome.Completed? || outcome.Unsettled? ==>
      && Pays(b, ledger', call) && ledger'[|b.ledger|].logId == outcome.logId
      && (outcome.Completed? ==> ledger'[|b.ledger|].delta == outcome.tokens)
  }

  lemma PerformPays(b: Books, call: Call, reservation: Option<Id>, fault: Fault)
    requires call.CallApprove? && call.target.ByDraft?
    ensures PaysUnder(b, Perform(b, call, reservation, fault).0.ledger, call, Perform(b, call, reservation, fault).1)
  {
    hide Commit, SetReservation, AwardFor, IsPriced, Balance, LogRefusal, Estimate;
    if Execute(b, call).Some? {
      var (executed, work) := Execute(b, call).value;
      var award := AwardFor(executed, work.proposer, work.units, work.ratio);
      AwardIsPriced(executed, work.proposer, work.units, work.ratio);
      PriceDependsOn(b, executed, work.proposer, work.units, work.ratio, award);
      CommitPays(executed, call, work, FinalEffects(executed, call, work), reservation, fault);
    }
  }

  /** An approval that completes, or fails in Step 7, pays the draft's proposer the whole number of tokens nearest to the price of
    * its units and ratio at the proposer's tier, under the configured rule. */
  lemma ApprovalPaysProposer(b: Books, call: Call, now: int, prune: bool, fault: Fault)
    requires call.CallApprove? && call.target.ByDraft?
    ensures PaysUnder(b, Run(b, call, now, prune, fault).0.ledger, call, Run(b, call, now, prune, fault).1)
  {
    hide Pays, SamePrices, Perform, Gate, Reserve, Estimate, LogRefusal, Permitted, IsActive;
    var gated := Gate(b, call, now, prune).0;
    GatesKeepPrices(b, call, now, prune);
    assert SamePrices(b, gated) ==> gated.ledger == b.ledger by { SamePricesMeans(b, gated); }
    if Reserve(gated, Estimate(call)).Some? {
      var (reserved, reservation) := Reserve(gated, Estimate(call)).value;
      ReserveKeepsPrices(gated, Estimate(call));
      SamePricesMeans(gated, reserved);
      PerformPays(reserved, call, reservation, fault);
      var (b', outcome) := Perform(reserved, call, reservation, fault);
      if outcome.Completed? || outcome.Unsettled? {
        SamePricesPay(gated, reserved, b'.ledger, call);
        SamePricesPay(b, gated, b'.ledger, call);
      }
    }
  }

  lemma SamePricesMeans(b: Books, b': Books)
    ensures SamePrices(b, b') ==> b'.ledger == b.ledger
  {
  }
}
