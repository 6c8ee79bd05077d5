/** What each tool of the repository demands and what its run leaves, in the columns of the rows alone: who may run it and when,
  * exactly when a run is refused, and the whole state after one that is not (tools/, internal/execution/execution.go). */
module Receipts {
  import opened Common
  import opened Books
  import opened Engine
  import RateLimit
  import Drafts

  // ---- The gates, column by column ----------------------------------------------------------------------

  /** Step 1: a member, and an active one. */
  predicate Acts(b: Books, agent: Id) {
    agent in b.members && b.members[agent].status == MemberActive
  }

  predicate Owns(b: Books, agent: Id) {
    agent in b.members && b.members[agent].isOwner
  }

  /** Step 1.5: the hour has a call left. */
  predicate HasCall(b: Books, agent: Id, now: int) {
    b.hourlyLimit > 0 && (agent, now / 3600) in b.buckets ==> b.buckets[(agent, now / 3600)] < b.hourlyLimit
  }

  /** Step 2.5: a limited budget covers the cost. */
  predicate Affords(b: Books, cost: int) {
    cost > 0 && b.counter.Some? && b.counter.value.limit > 0 ==> b.counter.value.spent + cost <= b.counter.value.limit
  }

  /** Step 4: a positive cost is in US dollars. */
  predicate PaysInDollars(b: Books, cost: int) {
    cost > 0 ==> b.currency == "" || b.currency == "USD"
  }

  /** cost_cents rounded down to whole cents where it is given and not negative, else the placeholder. */
  predicate IsCost(costCents: Option<real>, placeholder: int, cost: int) {
    if costCents.Some? && costCents.value >= 0.0 then cost as real <= costCents.value < cost as real + 1.0 else cost == placeholder
  }

  lemma CostIsCharged(costCents: Option<real>, placeholder: int, cost: int)
    requires IsCost(costCents, placeholder, cost)
    ensures Charged(costCents, placeholder) == cost
  {
  }

  // ---- The budget, column by column -----------------------------------------------------------------------

  predicate IsBooked(b: Books, cost: int) {
    b.counter.Some? && cost > 0
  }

  /** The first id a run draws after its reservation. */
  function FirstId(b: Books, cost: int): Id {
    if IsBooked(b, cost) then b.next + 1 else b.next
  }

  /** The reservation under the next id, if there is one, ends as the outcome says: settled by the run's log row, left reserved, or
    * released; and only a completed run is charged. */
  predicate EndsBudget(b: Books, b': Books, cost: int, outcome: Outcome) {
    && (outcome.Completed? ==>
          && b'.counter == (if b.counter.None? then None else Some(Counter(b.counter.value.limit, b.counter.value.spent + cost)))
          && b'.reservations == (if IsBooked(b, cost) then b.reservations[b.next := Reservation(cost, Settled(outcome.logId))]
                                 else b.reservations))
    && (outcome.Unsettled? ==>
          && b'.counter == b.counter
          && b'.reservations == (if IsBooked(b, cost) then b.reservations[b.next := Reservation(cost, Reserved)] else b.reservations))
    && (outcome.Aborted? ==>
          && b'.counter == b.counter
          && b'.reservations == (if IsBooked(b, cost) then b.reservations[b.next := Reservation(cost, Released)] else b.reservations))
  }

  /** How a run that is not refused ends: the award's statement or the charge fails, or nothing does. */
  predicate EndsAs(outcome: Outcome, fault: Fault, cost: int, logId: Id, tokens: int) {
    if fault == ApplyFails then outcome == Aborted(logId)
    else if fault == SettleFails && cost > 0 then outcome == Unsettled(logId)
    else outcome == Completed(logId, tokens, cost)
  }

  // ---- A run before its success row -----------------------------------------------------------------------

  function Reserving(b: Books, cost: int): Books {
    if IsBooked(b, cost) then b.(reservations := b.reservations[b.next := Reservation(cost, Reserved)], next := b.next + 1) else b
  }

  /** The books a run has when it comes to Step 3. */
  function Booked(b: Books, agent: Id, now: int, prune: bool, cost: int): Books {
    Reserving(b.(buckets := RateLimit.CheckAndIncrement(b.buckets, b.hourlyLimit, agent, now, prune).0), cost)
  }

  lemma BookedIsColumns(b: Books, agent: Id, now: int, prune: bool, cost: int)
    ensures Booked(b, agent, now, prune, cost)
         == b.(buckets := RateLimit.CheckAndIncrement(b.buckets, b.hourlyLimit, agent, now, prune).0,
               reservations := Reserving(b, cost).reservations, next := FirstId(b, cost))
  {
    hide RateLimit.CheckAndIncrement;
  }

  function Ticket(b: Books, cost: int): Option<Id> {
    if IsBooked(b, cost) then Some(b.next) else None
  }

  lemma GateIsColumns(b: Books, call: Call, now: int, prune: bool)
    requires IsClause(call)
    ensures Gate(b, call, now, prune).1 <==> HasCall(b, call.agent, now)
    ensures Gate(b, call, now, prune).0 == b.(buckets := RateLimit.CheckAndIncrement(b.buckets, b.hourlyLimit, call.agent, now, prune).0)
  {
  }

  lemma ReserveIsColumns(b: Books, estimate: int)
    ensures Reserve(b, estimate).Some? <==> Affords(b, estimate)
    ensures Reserve(b, estimate).Some? ==> Reserve(b, estimate).value == (Reserving(b, estimate), Ticket(b, estimate))
  {
  }

  /** A clause run is refused before Step 3, or performs on the booked rows. */
  lemma ClauseRunPerforms(b: Books, call: Call, now: int, prune: bool, fault: Fault, cost: int)
    requires IsClause(call) && !call.CallOther? && Estimate(call) == cost
    ensures var admitted := Acts(b, call.agent) && HasCall(b, call.agent, now) && Permitted(b, call) && Affords(b, cost);
            if admitted then Run(b, call, now, prune, fault) == Perform(Booked(b, call.agent, now, prune, cost), call, Ticket(b, cost), fault)
            else Run(b, call, now, prune, fault).1.Refused?
  {
    GateIsColumns(b, call, now, prune);
    ReserveIsColumns(Gate(b, call, now, prune).0, cost);
    hide Perform, Gate, Reserve, Estimate, LogRefusal, RateLimit.CheckAndIncrement;
  }

  /** So is a run of an owner tool, which is not counted and costs nothing. */
  lemma OwnerRunPerforms(b: Books, call: Call, now: int, prune: bool, fault: Fault)
    requires call.CallReject? || call.CallApproveAccess? || call.CallRejectAccess?
    ensures if Acts(b, call.agent) && Permitted(b, call) then Run(b, call, now, prune, fault) == Perform(b, call, None, fault)
            else Run(b, call, now, prune, fault).1.Refused?
  {
    hide Perform, LogRefusal;
  }

  lemma CurrencyIsDollars(b: Books, cost: int)
    ensures cost > 0 && "USD" != BudgetCurrency(b) <==> !PaysInDollars(b, cost)
  {
  }

  lemma CommitIsNoRefusal(b: Books, call: Call, work: Work, effects: Effects, reservation: Option<Id>, fault: Fault)
    ensures !Commit(b, call, work, effects, reservation, fault).1.Refused?
  {
    hide Apply, SetReservation, RecordSpend, Estimate;
  }

  /** A reservation settled or released, in columns. */
  lemma BudgetIsColumns(b: Books, applied: Books, cost: int, logId: Id)
    requires applied.reservations == Reserving(b, cost).reservations && applied.counter == b.counter && cost >= 0
    ensures var b' := RecordSpend(applied, cost, Ticket(b, cost), logId);
            b' == applied.(counter := b'.counter, reservations := b'.reservations) && EndsBudget(b, b', cost, Completed(logId, 0, 0))
    ensures var b' := SetReservation(applied, Ticket(b, cost), Released);
            b' == applied.(counter := b'.counter, reservations := b'.reservations) && EndsBudget(b, b', cost, Aborted(logId))
    ensures EndsBudget(b, applied, cost, Unsettled(logId))
  {
    if IsBooked(b, cost) {
      assert applied.reservations[b.next := Reservation(cost, Settled(logId))] == b.reservations[b.next := Reservation(cost, Settled(logId))];
      assert applied.reservations[b.next := Reservation(cost, Released)] == b.reservations[b.next := Reservation(cost, Released)];
    }
  }

  /** Steps 5 to 7 of a run whose side effects leave the budget alone. */
  lemma CommitEnds(b: Books, start: Books, call: Call, work: Work, effects: Effects, fault: Fault, cost: int)
    requires start.reservations == Reserving(b, cost).reservations && start.counter == b.counter && cost >= 0
    requires Estimate(call) == cost && effects.cost == cost
    requires var applied := Apply(AppendLog(start, call, Success, effects.tokens, cost), call, work, effects.tokens, start.next, fault);
             applied.0.counter == b.counter && applied.0.reservations == start.reservations && (applied.1 <==> fault != ApplyFails)
    ensures var applied := Apply(AppendLog(start, call, Success, effects.tokens, cost), call, work, effects.tokens, start.next, fault).0;
            var (b', outcome) := Commit(start, call, work, effects, Ticket(b, cost), fault);
            && EndsAs(outcome, fault, cost, start.next, effects.tokens) && EndsBudget(b, b', cost, outcome)
            && b' == applied.(counter := b'.counter, reservations := b'.reservations)
  {
    var applied := Apply(AppendLog(start, call, Success, effects.tokens, cost), call, work, effects.tokens, start.next, fault).0;
    BudgetIsColumns(b, applied, cost, start.next);
    hide Estimate, Apply, AppendLog, SetReservation, RecordSpend, Reserving;
  }

  // ---- propose_passage --------------------------------------------------------------------------------------

  /** The state after a proposal: the call counted, one success row with its cost, the author's draft pending unless its statement
    * failed, the budget, and nothing else. */
  predicate IsProposal(b: Books, agent: Id, now: int, prune: bool, cost: int, b': Books, outcome: Outcome) {
    var draft := FirstId(b, cost);
    && EndsBudget(b, b', cost, outcome)
    && b' == b.(buckets := RateLimit.CheckAndIncrement(b.buckets, b.hourlyLimit, agent, now, prune).0,
                pending := if outcome.Aborted? then b.pending else b.pending[draft := agent],
                logs := b.logs + [LogRow(draft + 1, agent, ProposePassage, Success, 0, cost)],
                counter := b'.counter, reservations := b'.reservations, next := draft + 2)
  }

  lemma ProposalPerforms(b: Books, call: Call, fault: Fault, cost: int, reservation: Option<Id>)
    requires call.CallPropose? && Estimate(call) == cost && cost >= 0
    ensures Perform(b, call, reservation, fault).1.Refused? <==> !(PaysInDollars(b, cost) && fault != LogFails)
    ensures PaysInDollars(b, cost) && fault != LogFails ==>
              Perform(b, call, reservation, fault)
              == Commit(b.(next := b.next + 1), call, Drafted(b.next), Effects(0, cost, "USD"), reservation, fault)
  {
    CurrencyIsDollars(b, cost);
    CommitIsNoRefusal(b.(next := b.next + 1), call, Drafted(b.next), Effects(0, cost, "USD"), reservation, fault);
    hide Commit, Estimate, LogRefusal, SetReservation, PaysInDollars, BudgetCurrency;
  }

  lemma ProposalApplies(b: Books, call: Call, draft: Id, logId: Id, fault: Fault)
    requires call.CallPropose?
    ensures Apply(b, call, Drafted(draft), 0, logId, fault)
         == (if fault == ApplyFails then b else b.(pending := b.pending[draft := call.agent]), fault != ApplyFails)
  {
  }

  lemma ProposalCommits(b: Books, agent: Id, now: int, prune: bool, call: Call, fault: Fault, cost: int)
    requires call.CallPropose? && call.agent == agent && Estimate(call) == cost && cost >= 0
    ensures var booked := Booked(b, agent, now, prune, cost);
            var (b', outcome) := Commit(booked.(next := booked.next + 1), call, Drafted(booked.next), Effects(0, cost, "USD"), Ticket(b, cost), fault);
            EndsAs(outcome, fault, cost, FirstId(b, cost) + 1, 0) && IsProposal(b, agent, now, prune, cost, b', outcome)
  {
    hide Estimate, RateLimit.CheckAndIncrement, Commit, EndsBudget, Apply, Booked, Reserving;
    BookedIsColumns(b, agent, now, prune, cost);
    var booked := Booked(b, agent, now, prune, cost);
    var drafted := booked.(next := booked.next + 1);
    ProposalApplies(AppendLog(drafted, call, Success, 0, cost), call, booked.next, drafted.next, fault);
    CommitEnds(b, drafted, call, Drafted(booked.next), Effects(0, cost, "USD"), fault, cost);
  }

  /** Who may propose, and what a proposal leaves. */
  lemma ProposalReceipt(b: Books, agent: Id, units: int, costCents: Option<real>, now: int, prune: bool, fault: Fault, cost: int)
    requires IsCost(costCents, 10, cost)
    ensures var (b', outcome) := Run(b, CallPropose(agent, units, costCents), now, prune, fault);
            && (outcome.Refused? <==>
                  !(Acts(b, agent) && HasCall(b, agent, now) && b.state == ACTIVE && units > 0
                    && Affords(b, cost) && PaysInDollars(b, cost) && fault != LogFails))
            && (!outcome.Refused? ==>
                  EndsAs(outcome, fault, cost, FirstId(b, cost) + 1, 0) && IsProposal(b, agent, now, prune, cost, b', outcome))
  {
    var call := CallPropose(agent, units, costCents);
    CostIsCharged(costCents, 10, cost);
    assert Estimate(call) == cost && cost >= 0;
    var booked := Booked(b, agent, now, prune, cost);
    assert booked.currency == b.currency;
    ClauseRunPerforms(b, call, now, prune, fault, cost);
    ProposalPerforms(booked, call, fault, cost, Ticket(b, cost));
    ProposalCommits(b, agent, now, prune, call, fault, cost);
    hide Run, Perform, Commit, Estimate, Booked, Affords, HasCall, Acts, IsProposal;
  }

  // ---- approve_draft ----------------------------------------------------------------------------------------

  /** The last row with this id. */
  predicate IsLast(logs: seq<LogRow>, k: int, id: Id) {
    0 <= k < |logs| && logs[k].id == id && forall j :: k < j < |logs| ==> logs[j].id != id
  }

  /** The lookups by log id read the last row with it. */
  lemma {:induction false} LookupsReadLast(logs: seq<LogRow>, id: Id) returns (k: Option<nat>)
    ensures k.Some? ==> IsLast(logs, k.value, id) && AgentOfLog(logs, id) == Some(logs[k.value].agent) && CostOfLog(logs, id) == logs[k.value].cost
    ensures k.None? ==> (forall j :: 0 <= j < |logs| ==> logs[j].id != id) && AgentOfLog(logs, id) == None && CostOfLog(logs, id) == 0
  {
    if logs == [] {
      k := None;
    } else if logs[|logs| - 1].id == id {
      k := Some(|logs| - 1);
    } else {
      k := LookupsReadLast(logs[..|logs| - 1], id);
    }
  }

  /** The pending draft an approval names: by its id, or as the oldest of the agent whose row it names. */
  ghost predicate Finds(b: Books, target: DraftTarget, draft: Id) {
    && draft in b.pending
    && match target
       case ByDraft(d) => d == draft
       case ByLog(l) =>
         && (exists k :: IsLast(b.logs, k, l) && b.logs[k].agent == b.pending[draft])
         && forall d :: d in b.pending && b.pending[d] == b.pending[draft] ==> draft <= d
       case NoTarget => false
  }

  lemma ResolvingFinds(b: Books, target: DraftTarget, draft: Id)
    ensures (ResolveDraft(b, target) == Some(draft) && draft in b.pending) <==> Finds(b, target, draft)
  {
    if target.ByLog? && draft in b.pending {
      var k := LookupsReadLast(b.logs, target.log);
      hide AgentOfLog;
      forall j | IsLast(b.logs, j, target.log) ensures k.Some? && j == k.value {}
    }
  }

  /** The state after an approval: the call counted, the draft claimed, one success row with the award and the cost, the proposer's
    * award at its price unless its statement failed, the budget, and nothing else. */
  ghost predicate IsApproval(b: Books, agent: Id, draft: Id, units: int, ratio: real, now: int, prune: bool, cost: int, tokens: int,
                             b': Books, outcome: Outcome)
    requires draft in b.pending
  {
    var proposer, logId := b.pending[draft], FirstId(b, cost);
    var award := LedgerRow(proposer, tokens, Sum(b.ledger, DeltaOfAgent(proposer)) + tokens, Passage, draft, logId, Confirmed);
    && EndsBudget(b, b', cost, outcome) && Drafts.IsPriced(b, proposer, units, if ratio == 0.0 then 1.0 else ratio, tokens)
    && b' == b.(buckets := RateLimit.CheckAndIncrement(b.buckets, b.hourlyLimit, agent, now, prune).0,
                pending := b.pending - {draft},
                logs := b.logs + [LogRow(logId, agent, ApproveDraft, Success, tokens, cost)],
                ledger := if outcome.Aborted? then b.ledger else b.ledger + [award],
                counter := b'.counter, reservations := b'.reservations, next := logId + 1)
  }

  /** The award that Step 4 computes once the draft is claimed. */
  function AwardOn(b: Books, call: Call, draft: Id): int
    requires call.CallApprove? && draft in b.pending
  {
    AwardFor(b.(pending := b.pending - {draft}), b.pending[draft], call.units, if call.ratio == 0.0 then 1.0 else call.ratio)
  }

  function ClaimOn(b: Books, call: Call, draft: Id): Work
    requires call.CallApprove? && draft in b.pending
  {
    Claimed(draft, b.pending[draft], call.units, if call.ratio == 0.0 then 1.0 else call.ratio)
  }

  lemma ApprovalPerforms(b: Books, call: Call, draft: Id, fault: Fault, cost: int, reservation: Option<Id>)
    requires call.CallApprove? && Estimate(call) == cost && cost >= 0 && Finds(b, call.target, draft)
    ensures Perform(b, call, reservation, fault).1.Refused? <==> !(call.units > 0 && PaysInDollars(b, cost) && fault != LogFails)
    ensures call.units > 0 && PaysInDollars(b, cost) && fault != LogFails ==>
              Perform(b, call, reservation, fault)
              == Commit(b.(pending := b.pending - {draft}), call, ClaimOn(b, call, draft), Effects(AwardOn(b, call, draft), cost, "USD"),
                        reservation, fault)
  {
    ResolvingFinds(b, call.target, draft);
    CurrencyIsDollars(b, cost);
    CommitIsNoRefusal(b.(pending := b.pending - {draft}), call, ClaimOn(b, call, draft), Effects(AwardOn(b, call, draft), cost, "USD"),
                      reservation, fault);
    hide Commit, Estimate, LogRefusal, SetReservation, PaysInDollars, BudgetCurrency, ResolveDraft, Finds, AwardFor;
  }

  lemma ApprovalApplies(b: Books, call: Call, work: Work, tokens: int, logId: Id, fault: Fault)
    requires work.Claimed?
    ensures Apply(b, call, work, tokens, logId, fault)
         == (if fault == ApplyFails then b
             else b.(ledger := b.ledger + [LedgerRow(work.proposer, tokens, Sum(b.ledger, DeltaOfAgent(work.proposer)) + tokens, Passage,
                                                     work.draft, logId, Confirmed)]),
             fault != ApplyFails)
  {
    hide Sum;
  }

  lemma ApprovalCommits(b: Books, now: int, prune: bool, call: Call, draft: Id, fault: Fault, cost: int)
    requires call.CallApprove? && Estimate(call) == cost && cost >= 0 && draft in b.pending
    ensures var booked := Booked(b, call.agent, now, prune, cost); var tokens := AwardOn(booked, call, draft);
            var (b', outcome) := Commit(booked.(pending := booked.pending - {draft}), call, ClaimOn(booked, call, draft),
                                        Effects(tokens, cost, "USD"), Ticket(b, cost), fault);
            && EndsAs(outcome, fault, cost, FirstId(b, cost), tokens)
            && IsApproval(b, call.agent, draft, call.units, call.ratio, now, prune, cost, tokens, b', outcome)
  {
    hide Estimate, RateLimit.CheckAndIncrement, Commit, EndsBudget, Apply, Booked, Reserving, AwardFor, Sum, Drafts.IsPriced;
    BookedIsColumns(b, call.agent, now, prune, cost);
    var booked := Booked(b, call.agent, now, prune, cost);
    var claimed, work, tokens := booked.(pending := booked.pending - {draft}), ClaimOn(booked, call, draft), AwardOn(booked, call, draft);
    ApprovalApplies(AppendLog(claimed, call, Success, tokens, cost), call, work, tokens, claimed.next, fault);
    Drafts.AwardIsPriced(claimed, work.proposer, work.units, work.ratio);
    Drafts.PriceDependsOn(b, claimed, work.proposer, work.units, work.ratio, tokens);
    CommitEnds(b, claimed, call, work, Effects(tokens, cost, "USD"), fault, cost);
  }

  /** Who may approve, and what an approval of a draft that is found leaves. */
  lemma ApprovalReceipt(b: Books, call: Call, draft: Id, now: int, prune: bool, fault: Fault, cost: int)
    requires call.CallApprove? && IsCost(call.costCents, 5, cost) && Finds(b, call.target, draft)
    ensures var (b', outcome) := Run(b, call, now, prune, fault);
            && (outcome.Refused? <==>
                  !(Acts(b, call.agent) && HasCall(b, call.agent, now) && b.state == ACTIVE && Owns(b, call.agent) && call.units > 0
                    && Affords(b, cost) && PaysInDollars(b, cost) && fault != LogFails))
            && (!outcome.Refused? ==>
                  exists tokens ::
                    && EndsAs(outcome, fault, cost, FirstId(b, cost), tokens)
                    && IsApproval(b, call.agent, draft, call.units, call.ratio, now, prune, cost, tokens, b', outcome))
  {
    CostIsCharged(call.costCents, 5, cost);
    assert Estimate(call) == cost && cost >= 0;
    assert Permitted(b, call) <==> b.state == ACTIVE && Owns(b, call.agent);
    var booked := Booked(b, call.agent, now, prune, cost);
    BookedFinds(b, call, draft, now, prune, cost);
    ClauseRunPerforms(b, call, now, prune, fault, cost);
    ApprovalPerforms(booked, call, draft, fault, cost, Ticket(b, cost));
    ApprovalCommits(b, now, prune, call, draft, fault, cost);
    hide Run, Perform, Commit, Estimate, Booked, Affords, HasCall, Acts, Owns, IsApproval, Permitted, Finds, AwardOn;
  }

  lemma BookedFinds(b: Books, call: Call, draft: Id, now: int, prune: bool, cost: int)
    requires call.CallApprove? && Finds(b, call.target, draft)
    ensures Finds(Booked(b, call.agent, now, prune, cost), call.target, draft)
    ensures Booked(b, call.agent, now, prune, cost).currency == b.currency
  {
    hide RateLimit.CheckAndIncrement;
  }

  /** An approval that finds no draft is refused. */
  lemma ApprovalFindsNothing(b: Books, call: Call, now: int, prune: bool, fault: Fault)
    requires call.CallApprove? && forall draft :: !Finds(b, call.target, draft)
    ensures Run(b, call, now, prune, fault).1.Refused?
  {
    var cost := Estimate(call);
    var booked := Booked(b, call.agent, now, prune, cost);
    ClauseRunPerforms(b, call, now, prune, fault, cost);
    assert ResolveDraft(booked, call.target) == ResolveDraft(b, call.target) && booked.pending == b.pending;
    if ResolveDraft(b, call.target).Some? {
      ResolvingFinds(b, call.target, ResolveDraft(b, call.target).value);
    }
    hide Run, Estimate, Booked, Permitted, Finds, ResolveDraft, Commit, LogRefusal, FinalEffects;
  }

  // ---- The owner's other tools ------------------------------------------------------------------------------

  /** The cost of the last row with this id, 0 without one. */
  ghost predicate IsLogged(logs: seq<LogRow>, id: Id, cost: int) {
    || (exists k :: IsLast(logs, k, id) && logs[k].cost == cost)
    || ((forall k :: 0 <= k < |logs| ==> logs[k].id != id) && cost == 0)
  }

  lemma CostIsLogged(logs: seq<LogRow>, id: Id)
    ensures IsLogged(logs, id, CostOfLog(logs, id))
  {
    var k := LookupsReadLast(logs, id);
    if k.Some? {
      assert IsLast(logs, k.value, id);
    }
  }

  /** The rows of one log id become reversed, the others stay. */
  predicate IsReversed(ledger: seq<LedgerRow>, logId: Id, ledger': seq<LedgerRow>) {
    && |ledger'| == |ledger|
    && forall i :: 0 <= i < |ledger| ==> ledger'[i] == if ledger[i].logId == logId then ledger[i].(status := Reversed) else ledger[i]
  }

  /** A positive cost is taken off what is spent, down to zero. */
  predicate IsRefunded(counter: Option<Counter>, cost: int, counter': Option<Counter>) {
    && (counter.None? <==> counter'.None?)
    && (counter.Some? ==>
          && counter'.value.limit == counter.value.limit
          && (cost <= 0 ==> counter'.value.spent == counter.value.spent)
          && (cost > 0 && counter.value.spent >= cost ==> counter'.value.spent + cost == counter.value.spent)
          && (cost > 0 && counter.value.spent < cost ==> counter'.value.spent == 0))
  }

  /** A rejection of a row with this logged cost. */
  predicate IsRejection(b: Books, agent: Id, logId: Id, cost: int, fault: Fault, b': Books, outcome: Outcome) {
    var unrefunded := fault == ApplyFails || (fault == RefundFails && cost > 0);
    && outcome == (if unrefunded then Aborted(b.next) else Completed(b.next, 0, 0))
    && (if fault == ApplyFails then b'.ledger == b.ledger else IsReversed(b.ledger, logId, b'.ledger))
    && (if unrefunded then b'.counter == b.counter else IsRefunded(b.counter, cost, b'.counter))
    && b' == b.(logs := b.logs + [LogRow(b.next, agent, RejectDraft, Success, 0, 0)], ledger := b'.ledger, counter := b'.counter,
                next := b.next + 1)
  }

  lemma RejectionPerforms(b: Books, agent: Id, logId: Id, fault: Fault)
    ensures var (b', outcome) := Perform(b, CallReject(agent, logId), None, fault);
            if fault == LogFails then outcome.Refused? else IsRejection(b, agent, logId, CostOfLog(b.logs, logId), fault, b', outcome)
  {
    hide CostOfLog, BudgetCurrency;
  }

  /** Who may reject an award, and what a rejection leaves: one success row, the award's rows reversed, its logged cost refunded,
    * and nothing else. It fails when its first statement does, or when the refund of a positive cost does; then the reversal stays
    * and nothing is refunded. */
  lemma RejectionReceipt(b: Books, agent: Id, logId: Id, now: int, prune: bool, fault: Fault)
    ensures var (b', outcome) := Run(b, CallReject(agent, logId), now, prune, fault);
            && (outcome.Refused? <==>
                  !(Acts(b, agent) && Owns(b, agent) && fault != LogFails
                    && exists i :: 0 <= i < |b.ledger| && b.ledger[i].logId == logId && b.ledger[i].status == Confirmed))
            && (!outcome.Refused? ==>
                  exists cost :: IsLogged(b.logs, logId, cost) && IsRejection(b, agent, logId, cost, fault, b', outcome))
  {
    var call := CallReject(agent, logId);
    OwnerRunPerforms(b, call, now, prune, fault);
    CostIsLogged(b.logs, logId);
    RejectionPerforms(b, agent, logId, fault);
    assert Permitted(b, call) <==> Owns(b, agent) && IsConfirmed(b.ledger, logId);
    hide Run, Perform, CostOfLog, IsLogged, Permitted;
  }

  /** Who may approve an access request, and what an approval leaves: one success row, the applicant an active member at the
    * requested tier who is no owner, the request approved, the entry fee booked against the member where there is one, and nothing
    * else. It fails for an unknown identity, a missing tier, a platform that is a member already or a failing statement, and then
    * leaves the success row alone. */
  lemma AccessApprovalReceipt(b: Books, agent: Id, request: Id, now: int, prune: bool, fault: Fault)
    ensures var (b', outcome) := Run(b, CallApproveAccess(agent, request), now, prune, fault);
            && (outcome.Refused? <==>
                  !(Acts(b, agent) && Owns(b, agent) && fault != LogFails
                    && request in b.requests && b.requests[request].status == Pending))
            && (!outcome.Refused? ==>
                  && request in b.requests && outcome in {Completed(b.next, 0, 0), Aborted(b.next)}
                  && (outcome.Completed? <==>
                        && fault != ApplyFails && b.requests[request].platform in b.identities && b.requests[request].tier in b.tiers
                        && forall a :: a in b.members ==> b.members[a].platform != b.requests[request].platform))
            && (outcome.Aborted? ==>
                  b' == b.(logs := b.logs + [LogRow(b.next, agent, ApproveAccess, Success, 0, 0)], next := b.next + 1))
            && (outcome.Completed? ==>
                  && var r, member := b.requests[request], b.next + 1;
                     var fee := b.tiers[r.tier].entryFee;
                     b' == b.(logs := b.logs + [LogRow(b.next, agent, ApproveAccess, Success, 0, 0)],
                              members := b.members[member := Member(r.platform, Some(r.tier), false, MemberActive)],
                              requests := b.requests[request := Request(r.platform, r.tier, Approved(b.next))],
                              ledger := if fee > 0 then b.ledger + [LedgerRow(member, -fee, -fee, EntryFee, request, b.next, Confirmed)]
                                        else b.ledger,
                              next := b.next + 2))
  {
    var call := CallApproveAccess(agent, request);
    OwnerRunPerforms(b, call, now, prune, fault);
    CommitIsNoRefusal(b, call, ToApprove(request), Effects(0, 0, "USD"), None, fault);
    assert Permitted(b, call) <==> Owns(b, agent) && IsPending(b, request);
    hide Run, Permitted;
  }

  /** Who may reject an access request, and what a rejection leaves; it fails when its statement does. */
  lemma AccessRejectionReceipt(b: Books, agent: Id, request: Id, now: int, prune: bool, fault: Fault)
    ensures var (b', outcome) := Run(b, CallRejectAccess(agent, request), now, prune, fault);
            && (outcome.Refused? <==>
                  !(Acts(b, agent) && Owns(b, agent) && fault != LogFails
                    && request in b.requests && b.requests[request].status == Pending))
            && (!outcome.Refused? ==>
                  && request in b.requests
                  && outcome == if fault == ApplyFails then Aborted(b.next) else Completed(b.next, 0, 0))
            && (outcome.Aborted? ==>
                  b' == b.(logs := b.logs + [LogRow(b.next, agent, RejectAccess, Success, 0, 0)], next := b.next + 1))
            && (outcome.Completed? ==>
                  && var r := b.requests[request];
                     b' == b.(logs := b.logs + [LogRow(b.next, agent, RejectAccess, Success, 0, 0)],
                              requests := b.requests[request := Request(r.platform, r.tier, Rejected(b.next))], next := b.next + 1))
  {
    var call := CallRejectAccess(agent, request);
    OwnerRunPerforms(b, call, now, prune, fault);
    CommitIsNoRefusal(b, call, ToReject(request), Effects(0, 0, "USD"), None, fault);
    assert Permitted(b, call) <==> Owns(b, agent) && IsPending(b, request);
    hide Run, Permitted;
  }

  // ---- Any other tool ---------------------------------------------------------------------------------------

  function Counting(b: Books, call: Call, now: int, prune: bool): Books {
    if IsClause(call) then b.(buckets := RateLimit.CheckAndIncrement(b.buckets, b.hourlyLimit, call.agent, now, prune).0) else b
  }

  lemma GatesAreColumns(b: Books, call: Call, now: int, prune: bool)
    ensures Gate(b, call, now, prune).0 == Counting(b, call, now, prune)
    ensures Gate(b, call, now, prune).1 <==> (IsClause(call) ==> HasCall(b, call.agent, now))
  {
    hide RateLimit.CheckAndIncrement;
    if IsClause(call) {
      GateIsColumns(b, call, now, prune);
    }
  }

  lemma RunPerforms(b: Books, call: Call, now: int, prune: bool, fault: Fault)
    ensures var passes := Acts(b, call.agent) && (IsClause(call) ==> HasCall(b, call.agent, now));
            var counted := Counting(b, call, now, prune);
            if passes && Permitted(b, call) && Affords(b, Estimate(call))
            then Run(b, call, now, prune, fault)
                 == Perform(Reserving(counted, Estimate(call)), call, Ticket(b, Estimate(call)), fault)
            else Run(b, call, now, prune, fault) == (if Acts(b, call.agent) then LogRefusal(counted, call) else b, Refused)
  {
    GatesAreColumns(b, call, now, prune);
    ReserveIsColumns(Counting(b, call, now, prune), Estimate(call));
    hide Perform, Gate, Reserve, Estimate, LogRefusal, RateLimit.CheckAndIncrement;
  }

  /** The cost that is logged: the tool's own, or its estimate where it reports none. */
  predicate IsReported(call: Call, cost: int)
    requires call.CallOther?
  {
    if call.effects.cost == 0 && call.estimate > 0 then cost == call.estimate else cost == call.effects.cost
  }

  /** A positive cost is in the budget's currency; either is US dollars where it is not given. */
  predicate SameCurrency(b: Books, call: Call, cost: int)
    requires call.CallOther?
  {
    cost > 0 ==> b.currency == call.effects.currency
                 || (call.effects.currency in {"", "USD"} && b.currency in {"", "USD"})
  }

  /** The state after another tool's run: one success row with its tokens and its cost, the budget charged with its estimate, and
    * nothing else. */
  predicate IsOther(b: Books, call: Call, now: int, prune: bool, cost: int, b': Books, outcome: Outcome)
    requires call.CallOther?
  {
    var estimate := if call.estimate > 0 then call.estimate else 0;
    var logId := FirstId(b, estimate);
    && EndsBudget(b, b', estimate, outcome)
    && b' == b.(buckets := if call.clause then RateLimit.CheckAndIncrement(b.buckets, b.hourlyLimit, call.agent, now, prune).0 else b.buckets,
                logs := b.logs + [LogRow(logId, call.agent, OtherTool(call.name), Success, call.effects.tokens, cost)],
                counter := b'.counter, reservations := b'.reservations, next := logId + 1)
  }

  lemma OtherPerforms(b: Books, call: Call, fault: Fault, cost: int, reservation: Option<Id>)
    requires call.CallOther? && IsReported(call, cost)
    ensures Perform(b, call, reservation, fault).1.Refused? <==> !(call.succeeds && SameCurrency(b, call, cost) && fault != LogFails)
    ensures call.succeeds && SameCurrency(b, call, cost) && fault != LogFails ==>
              Perform(b, call, reservation, fault)
              == Commit(b, call, Nothing, Effects(call.effects.tokens, cost, FinalEffects(b, call, Nothing).currency), reservation, fault)
  {
    CommitIsNoRefusal(b, call, Nothing, Effects(call.effects.tokens, cost, FinalEffects(b, call, Nothing).currency), reservation, fault);
    hide Commit, LogRefusal, SetReservation;
  }

  /** A cost below zero books and charges what no cost does. */
  lemma BelowZeroIsZero(b: Books, applied: Books, cost: int, logId: Id)
    requires cost <= 0
    ensures Reserving(b, cost) == Reserving(b, 0) && Ticket(b, cost) == Ticket(b, 0)
    ensures RecordSpend(applied, cost, Ticket(b, cost), logId) == RecordSpend(applied, 0, Ticket(b, 0), logId)
  {
  }

  lemma NothingCommits(b: Books, call: Call, effects: Effects, reservation: Option<Id>, fault: Fault)
    requires call.CallOther?
    ensures var logged := AppendLog(b, call, Success, effects.tokens, effects.cost);
            Commit(b, call, Nothing, effects, reservation, fault)
            == if fault == ApplyFails then (SetReservation(logged, reservation, Released), Aborted(b.next))
               else if fault == SettleFails && call.estimate > 0 then (logged, Unsettled(b.next))
               else (RecordSpend(logged, call.estimate, reservation, b.next), Completed(b.next, effects.tokens, effects.cost))
  {
    hide AppendLog, SetReservation, RecordSpend;
  }

  lemma OtherStarts(b: Books, call: Call, now: int, prune: bool, cost: int)
    ensures var counted := Counting(b, call, now, prune); var start := Reserving(counted, cost);
            && counted == b.(buckets := counted.buckets) && Ticket(b, cost) == Ticket(counted, cost)
            && start == counted.(reservations := start.reservations, next := FirstId(b, cost))
  {
    hide RateLimit.CheckAndIncrement;
  }

  lemma OtherEnds(b: Books, call: Call, now: int, prune: bool, cost: int, start: Books, b': Books, outcome: Outcome)
    requires call.CallOther?
    requires var estimate := if call.estimate > 0 then call.estimate else 0;
             && start == Counting(b, call, now, prune).(reservations := start.reservations, next := FirstId(b, estimate))
             && b' == AppendLog(start, call, Success, call.effects.tokens, cost).(counter := b'.counter, reservations := b'.reservations)
             && EndsBudget(b, b', estimate, outcome)
    ensures IsOther(b, call, now, prune, cost, b', outcome)
  {
    hide RateLimit.CheckAndIncrement, EndsBudget;
  }

  lemma OtherCommits(b: Books, now: int, prune: bool, call: Call, currency: string, fault: Fault, cost: int)
    requires call.CallOther?
    ensures var estimate := if call.estimate > 0 then call.estimate else 0;
            var start := Reserving(Counting(b, call, now, prune), call.estimate);
            var (b', outcome) := Commit(start, call, Nothing, Effects(call.effects.tokens, cost, currency), Ticket(b, call.estimate), fault);
            && IsOther(b, call, now, prune, cost, b', outcome)
            && outcome == if fault == ApplyFails then Aborted(FirstId(b, estimate))
                          else if fault == SettleFails && estimate > 0 then Unsettled(FirstId(b, estimate))
                          else Completed(FirstId(b, estimate), call.effects.tokens, cost)
  {
    hide Commit, EndsBudget, SetReservation, RecordSpend, Reserving, Ticket, Counting, FirstId, AppendLog, IsOther;
    var estimate := if call.estimate > 0 then call.estimate else 0;
    var counted := Counting(b, call, now, prune);
    var start := Reserving(counted, estimate);
    var logged := AppendLog(start, call, Success, call.effects.tokens, cost);
    OtherStarts(b, call, now, prune, estimate);
    assert logged.counter == counted.counter && logged.reservations == start.reservations by { LoggingKeepsBudget(start, call, call.effects.tokens, cost); }
    BudgetIsColumns(counted, logged, estimate, start.next);
    EndingBesideBuckets(b, counted, estimate);
    if call.estimate <= 0 {
      BelowZeroIsZero(counted, logged, call.estimate, start.next);
      BelowZeroIsZero(b, logged, call.estimate, start.next);
    }
    NothingCommits(start, call, Effects(call.effects.tokens, cost, currency), Ticket(b, call.estimate), fault);
    var (b', outcome) := Commit(start, call, Nothing, Effects(call.effects.tokens, cost, currency), Ticket(b, call.estimate), fault);
    EndsByKind(b, b', estimate, outcome);
    OtherEnds(b, call, now, prune, cost, start, b', outcome);
  }

  lemma LoggingKeepsBudget(b: Books, call: Call, tokens: int, cost: int)
    ensures var logged := AppendLog(b, call, Success, tokens, cost); logged.counter == b.counter && logged.reservations == b.reservations
  {
  }

  /** The budget looks at the log id of an outcome and at nothing else of it. */
  lemma EndsByKind(b: Books, b': Books, cost: int, outcome: Outcome)
    ensures outcome.Completed? && EndsBudget(b, b', cost, Completed(outcome.logId, 0, 0)) ==> EndsBudget(b, b', cost, outcome)
  {
  }

  lemma EndingBesideBuckets(b: Books, counted: Books, cost: int)
    requires counted == b.(buckets := counted.buckets)
    ensures forall b', outcome: Outcome :: EndsBudget(counted, b', cost, outcome) <==> EndsBudget(b, b', cost, outcome)
  {
  }

  /** When another tool's run is refused, how it ends, and what it leaves. */
  lemma OtherReceipt(b: Books, call: Call, now: int, prune: bool, fault: Fault, cost: int)
    requires call.CallOther? && IsReported(call, cost)
    ensures var (b', outcome) := Run(b, call, now, prune, fault);
            var estimate := if call.estimate > 0 then call.estimate else 0;
            && (outcome.Refused? <==>
                  !(Acts(b, call.agent) && (call.clause ==> HasCall(b, call.agent, now)) && call.permitted && Affords(b, call.estimate)
                    && call.succeeds && SameCurrency(b, call, cost) && fault != LogFails))
            && (!outcome.Refused? ==>
                  && IsOther(b, call, now, prune, cost, b', outcome)
                  && outcome == if fault == ApplyFails then Aborted(FirstId(b, estimate))
                                else if fault == SettleFails && estimate > 0 then Unsettled(FirstId(b, estimate))
                                else Completed(FirstId(b, estimate), call.effects.tokens, cost))
  {
    var start := Reserving(Counting(b, call, now, prune), call.estimate);
    RunPerforms(b, call, now, prune, fault);
    OtherPerforms(start, call, fault, cost, Ticket(b, call.estimate));
    OtherCommits(b, now, prune, call, FinalEffects(start, call, Nothing).currency, fault, cost);
    assert start.currency == b.currency by { hide RateLimit.CheckAndIncrement; }
    hide Run, Perform, Commit, FinalEffects, Counting, Reserving, Affords, HasCall, IsOther;
  }

  // ---- A refused run ----------------------------------------------------------------------------------------

  /** Before its refusal is logged a run may have counted the call, made a reservation and released it, and claimed a draft. */
  ghost predicate IsUnderway(b: Books, call: Call, now: int, prune: bool, b': Books) {
    && b' == b.(buckets := if IsClause(call) then RateLimit.CheckAndIncrement(b.buckets, b.hourlyLimit, call.agent, now, prune).0 else b.buckets,
                reservations := b'.reservations, pending := b'.pending, next := b'.next)
    && (b'.reservations == b.reservations
        || (IsBooked(b, Estimate(call)) && b'.reservations == b.reservations[b.next := Reservation(Estimate(call), Released)]))
    && (b'.pending == b.pending
        || (call.CallApprove? && exists draft :: Finds(b, call.target, draft) && b'.pending == b.pending - {draft}))
  }

  /** A refused run did no more than that and log one refusal row, without money or tokens. The row is missing only where its run's own
    * log statement is the one that fails. */
  ghost predicate IsRefusal(b: Books, call: Call, now: int, prune: bool, fault: Fault, b': Books) {
    && IsUnderway(b, call, now, prune, b'.(logs := b.logs))
    && ((b'.next > 0 && b'.logs == b.logs + [LogRow(b'.next - 1, call.agent, ToolOf(call), Refusal, 0, 0)])
        || (fault == LogFails && b'.logs == b.logs))
  }

  lemma RefusalIsLogged(b: Books, call: Call, now: int, prune: bool, fault: Fault, b': Books)
    requires IsUnderway(b, call, now, prune, b')
    ensures IsRefusal(b, call, now, prune, fault, LogRefusal(b', call))
    ensures fault == LogFails ==> IsRefusal(b, call, now, prune, fault, b')
  {
    hide Estimate, Finds, ToolOf, RateLimit.CheckAndIncrement;
  }

  lemma ReleasingIsUnderway(b: Books, call: Call, now: int, prune: bool, b': Books)
    requires b' == Counting(b, call, now, prune).(pending := b'.pending, next := b'.next,
                                                 reservations := Reserving(b, Estimate(call)).reservations)
    requires b'.pending == b.pending || (call.CallApprove? && exists draft :: Finds(b, call.target, draft) && b'.pending == b.pending - {draft})
    ensures IsUnderway(b, call, now, prune, SetReservation(b', Ticket(b, Estimate(call)), Released))
  {
    hide Estimate, Finds, RateLimit.CheckAndIncrement;
    if IsBooked(b, Estimate(call)) {
      assert b'.reservations[b.next := Reservation(Estimate(call), Released)] == b.reservations[b.next := Reservation(Estimate(call), Released)];
    }
  }

  lemma ExecutingIsUnderway(b: Books, start: Books, call: Call)
    requires Execute(start, call).Some? && start.logs == b.logs && start.pending == b.pending
    ensures var executed := Execute(start, call).value.0;
            && executed == start.(pending := executed.pending, next := executed.next)
            && (executed.pending == b.pending
                || (call.CallApprove? && exists draft :: Finds(b, call.target, draft) && executed.pending == b.pending - {draft}))
  {
    if call.CallApprove? {
      assert ResolveDraft(start, call.target) == ResolveDraft(b, call.target);
      ResolvingFinds(b, call.target, ResolveDraft(b, call.target).value);
    }
    hide ResolveDraft, Finds, CostOfLog;
  }

  lemma PerformRefuses(b: Books, call: Call, reservation: Option<Id>, fault: Fault)
    requires Perform(b, call, reservation, fault).1.Refused?
    ensures var b' := Perform(b, call, reservation, fault).0;
            if Execute(b, call).None? then b' == LogRefusal(SetReservation(b, reservation, Released), call)
            else var released := SetReservation(Execute(b, call).value.0, reservation, Released);
                 b' == LogRefusal(released, call) || (fault == LogFails && b' == released)
  {
    if Execute(b, call).Some? {
      var (executed, work) := Execute(b, call).value;
      CommitIsNoRefusal(executed, call, work, FinalEffects(executed, call, work), reservation, fault);
    }
    hide Execute, SetReservation, LogRefusal, FinalEffects, Commit, BudgetCurrency;
  }

  lemma PerformedIsRefusal(b: Books, call: Call, now: int, prune: bool, fault: Fault, start: Books)
    requires start == Counting(b, call, now, prune).(reservations := Reserving(b, Estimate(call)).reservations, next := start.next)
    requires start.logs == b.logs && start.pending == b.pending && Perform(start, call, Ticket(b, Estimate(call)), fault).1.Refused?
    ensures IsRefusal(b, call, now, prune, fault, Perform(start, call, Ticket(b, Estimate(call)), fault).0)
  {
    hide Perform, Execute, IsUnderway, IsRefusal, Estimate, Counting, Reserving, Finds, SetReservation, LogRefusal, Ticket;
    var ticket := Ticket(b, Estimate(call));
    PerformRefuses(start, call, ticket, fault);
    ReleasingIsUnderway(b, call, now, prune, start);
    RefusalIsLogged(b, call, now, prune, fault, SetReservation(start, ticket, Released));
    if Execute(start, call).Some? {
      var executed := Execute(start, call).value.0;
      ExecutingIsUnderway(b, start, call);
      ReleasingIsUnderway(b, call, now, prune, executed);
      RefusalIsLogged(b, call, now, prune, fault, SetReservation(executed, ticket, Released));
    }
  }

  lemma StartIsUnderway(b: Books, call: Call, now: int, prune: bool)
    ensures var counted := Counting(b, call, now, prune); var start := Reserving(counted, Estimate(call));
            && IsUnderway(b, call, now, prune, counted)
            && start == counted.(reservations := Reserving(b, Estimate(call)).reservations, next := start.next)
            && start.logs == b.logs && start.pending == b.pending
  {
    hide RateLimit.CheckAndIncrement, Estimate, Finds;
  }

  /** Main result, refusals: whatever the call, the time and the failing statement, a refused run of one who is no active member
    * changes nothing, and any other moves no tokens and no money and leaves no reservation open. */
  lemma RefusalReceipt(b: Books, call: Call, now: int, prune: bool, fault: Fault)
    requires Run(b, call, now, prune, fault).1.Refused?
    ensures var b' := Run(b, call, now, prune, fault).0;
            if Acts(b, call.agent) then IsRefusal(b, call, now, prune, fault, b') else b' == b
  {
    hide Run, Perform, IsUnderway, IsRefusal, Estimate, Counting, Reserving, LogRefusal, Permitted, Affords, HasCall;
    var start := Reserving(Counting(b, call, now, prune), Estimate(call));
    RunPerforms(b, call, now, prune, fault);
    StartIsUnderway(b, call, now, prune);
    RefusalIsLogged(b, call, now, prune, fault, Counting(b, call, now, prune));
    if Run(b, call, now, prune, fault) == Perform(start, call, Ticket(b, Estimate(call)), fault) {
      PerformedIsRefusal(b, call, now, prune, fault, start);
    }
  }
}
