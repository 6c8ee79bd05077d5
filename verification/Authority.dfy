/** Who may do what, over whole histories: runs are the members' and approvals the owners', nobody becomes an owner, the lifecycle
  * only moves on, and tiers are kept as they were added (tools/, internal/covenant/covenant.go). */
module Authority {
  import opened Common
  import opened Books
  import opened Engine
  import Accounting
  import History
  import RateLimit
  import Receipts

  // ---- One run --------------------------------------------------------------------------------------------

  /** Main result, authority: whatever the call, the time and the failing statement, a run that is not refused is an active member's, and
    * meets what its own tool demands: an active covenant and a positive unit count to propose; an active covenant, an owner, a
    * named target and a positive unit count to approve; an owner and a confirmed row to reject; an owner and a pending request to
    * approve or reject an access request. */
  lemma RunIsAuthorized(b: Books, call: Call, now: int, prune: bool, fault: Fault)
    requires !Run(b, call, now, prune, fault).1.Refused?
    ensures call.agent in b.members && b.members[call.agent].status == MemberActive
    ensures call.CallPropose? ==> b.state == ACTIVE && call.units > 0
    ensures call.CallApprove? ==> b.state == ACTIVE && b.members[call.agent].isOwner && !call.target.NoTarget? && call.units > 0
    ensures call.CallReject? ==>
              b.members[call.agent].isOwner
              && exists i :: 0 <= i < |b.ledger| && b.ledger[i].logId == call.logId && b.ledger[i].status == Confirmed
    ensures call.CallApproveAccess? || call.CallRejectAccess? ==>
              b.members[call.agent].isOwner && call.request in b.requests && b.requests[call.request].status == Pending
    ensures call.CallOther? ==> call.permitted && call.succeeds
  {
    hide Run, Receipts.IsProposal, Receipts.IsApproval, Receipts.Finds, Receipts.EndsAs, Receipts.HasCall, Receipts.Affords;
    match call
    case CallPropose(agent, units, costCents) =>
      Receipts.ProposalReceipt(b, agent, units, costCents, now, prune, fault, Charged(costCents, 10));
    case CallApprove(_, _, _, _, _) => ApprovalIsAuthorized(b, call, now, prune, fault);
    case CallReject(agent, logId) => Receipts.RejectionReceipt(b, agent, logId, now, prune, fault);
    case CallApproveAccess(agent, request) => Receipts.AccessApprovalReceipt(b, agent, request, now, prune, fault);
    case CallRejectAccess(agent, request) => Receipts.AccessRejectionReceipt(b, agent, request, now, prune, fault);
    case CallOther(_, _, _, _, _, _, _) => OtherIsAuthorized(b, call, now, prune, fault);
  }

  lemma ApprovalIsAuthorized(b: Books, call: Call, now: int, prune: bool, fault: Fault)
    requires call.CallApprove? && !Run(b, call, now, prune, fault).1.Refused?
    ensures call.agent in b.members && b.members[call.agent].status == MemberActive
    ensures b.state == ACTIVE && b.members[call.agent].isOwner && !call.target.NoTarget? && call.units > 0
  {
    if draft :| Receipts.Finds(b, call.target, draft) {
      Receipts.ApprovalReceipt(b, call, draft, now, prune, fault, Charged(call.costCents, 5));
      hide Run, Receipts.IsApproval, Receipts.EndsAs, Receipts.HasCall, Receipts.Affords;
    } else {
      Receipts.ApprovalFindsNothing(b, call, now, prune, fault);
    }
  }

  lemma OtherIsAuthorized(b: Books, call: Call, now: int, prune: bool, fault: Fault)
    requires call.CallOther? && !Run(b, call, now, prune, fault).1.Refused?
    ensures call.agent in b.members && b.members[call.agent].status == MemberActive && call.permitted && call.succeeds
  {
    hide Commit, LogRefusal, RateLimit.CheckAndIncrement, FinalEffects;
  }

  // ---- What a run writes down -------------------------------------------------------------------------------

  /** At most one row more, the caller's and the tool's, and a success only if the run was not refused. */
  ghost predicate LogsOne(b: Books, call: Call, b': Books, refused: bool) {
    b'.logs == b.logs
    || (|b'.logs| == |b.logs| + 1 && b'.logs[..|b.logs|] == b.logs
        && var row := b'.logs[|b.logs|];
           row.agent == call.agent && row.tool == ToolOf(call) && (row.result == Success ==> !refused))
  }

  /** Members stay and keep their ownership; newcomers have new ids and own nothing. */
  ghost predicate KeepsOwners(b: Books, b': Books) {
    && b'.next >= b.next
    && (forall a :: a in b.members ==> a in b'.members && (b'.members[a].isOwner <==> b.members[a].isOwner))
    && forall a :: a in b'.members && a !in b.members ==> !b'.members[a].isOwner && b.next <= a < b'.next
  }

  /** Steps that write neither logs nor members. */
  predicate Quiet(b: Books, b': Books) {
    b'.logs == b.logs && b'.members == b.members && b'.next >= b.next
  }

  lemma BookkeepingIsQuiet(b: Books, reservation: Option<Id>, status: ReservationStatus, estimate: int, logId: Id)
    ensures Quiet(b, SetReservation(b, reservation, status)) && Quiet(b, RecordSpend(b, estimate, reservation, logId))
  {
  }

  lemma ApplyKeepsOwners(b: Books, call: Call, work: Work, tokens: int, logId: Id, fault: Fault)
    requires forall a :: a in b.members ==> a < b.next
    ensures var b' := Apply(b, call, work, tokens, logId, fault).0; b'.logs == b.logs && KeepsOwners(b, b')
  {
    hide HasPlatform, Post;
  }

  lemma CommitIsRecorded(b: Books, call: Call, work: Work, effects: Effects, reservation: Option<Id>, fault: Fault)
    requires forall a :: a in b.members ==> a < b.next
    ensures var (b', outcome) := Commit(b, call, work, effects, reservation, fault);
            LogsOne(b, call, b', outcome.Refused?) && KeepsOwners(b, b') && !outcome.Refused?
  {
    hide Apply, SetReservation, RecordSpend, Estimate;
    var logged := AppendLog(b, call, Success, effects.tokens, effects.cost);
    ApplyKeepsOwners(logged, call, work, effects.tokens, b.next, fault);
    var applied := Apply(logged, call, work, effects.tokens, b.next, fault).0;
    BookkeepingIsQuiet(applied, reservation, Released, Estimate(call), b.next);
  }

  lemma RefusalIsRecorded(b: Books, call: Call)
    ensures LogsOne(b, call, LogRefusal(b, call), true) && KeepsOwners(b, LogRefusal(b, call))
  {
  }

  lemma QuietThen(b: Books, b': Books, b'': Books, call: Call, refused: bool)
    requires Quiet(b, b') && LogsOne(b', call, b'', refused) && KeepsOwners(b', b'')
    ensures LogsOne(b, call, b'', refused) && KeepsOwners(b, b'')
  {
  }

  lemma PerformIsRecorded(b: Books, call: Call, reservation: Option<Id>, fault: Fault)
    requires forall a :: a in b.members ==> a < b.next
    ensures var (b', outcome) := Perform(b, call, reservation, fault);
            LogsOne(b, call, b', outcome.Refused?) && KeepsOwners(b, b')
  {
    hide Commit, Execute, FinalEffects, SetReservation, LogRefusal, LogsOne, KeepsOwners;
    BookkeepingIsQuiet(b, reservation, Released, 0, 0);
    RefusalIsRecorded(SetReservation(b, reservation, Released), call);
    QuietThen(b, SetReservation(b, reservation, Released), LogRefusal(SetReservation(b, reservation, Released), call), call, true);
    if Execute(b, call).Some? {
      var (executed, work) := Execute(b, call).value;
      ExecuteIsQuiet(b, call);
      var released := SetReservation(executed, reservation, Released);
      BookkeepingIsQuiet(executed, reservation, Released, 0, 0);
      NothingIsRecorded(b, released, call);
      RefusalIsRecorded(released, call);
      QuietThen(b, released, LogRefusal(released, call), call, true);
      CommitIsRecorded(executed, call, work, FinalEffects(executed, call, work), reservation, fault);
      var (b', outcome) := Commit(executed, call, work, FinalEffects(executed, call, work), reservation, fault);
      QuietThen(b, executed, b', call, outcome.Refused?);
    }
  }

  lemma ExecuteIsQuiet(b: Books, call: Call)
    requires Execute(b, call).Some?
    ensures Quiet(b, Execute(b, call).value.0)
  {
  }

  lemma NothingIsRecorded(b: Books, b': Books, call: Call)
    requires Quiet(b, b')
    ensures LogsOne(b, call, b', true) && KeepsOwners(b, b')
  {
  }

  lemma GatesAreQuiet(b: Books, call: Call, now: int, prune: bool)
    ensures Quiet(b, Gate(b, call, now, prune).0)
    ensures Reserve(b, Estimate(call)).Some? ==> Quiet(b, Reserve(b, Estimate(call)).value.0)
  {
    hide RateLimit.CheckAndIncrement, Estimate;
  }

  lemma RunIsRecorded(b: Books, call: Call, now: int, prune: bool, fault: Fault)
    requires forall a :: a in b.members ==> a < b.next
    ensures var (b', outcome) := Run(b, call, now, prune, fault);
            LogsOne(b, call, b', outcome.Refused?) && KeepsOwners(b, b')
  {
    hide Perform, Gate, Reserve, Estimate, LogRefusal, Permitted, IsActive, LogsOne, KeepsOwners;
    NothingIsRecorded(b, b, call);
    var gated := Gate(b, call, now, prune).0;
    GatesAreQuiet(b, call, now, prune);
    RefusalIsRecorded(gated, call);
    QuietThen(b, gated, LogRefusal(gated, call), call, true);
    GatesAreQuiet(gated, call, now, prune);
    if Reserve(gated, Estimate(call)).Some? {
      var (reserved, reservation) := Reserve(gated, Estimate(call)).value;
      PerformIsRecorded(reserved, call, reservation, fault);
      var (b', outcome) := Perform(reserved, call, reservation, fault);
      QuietThen(b, reserved, b', call, outcome.Refused?);
    }
  }

  // ---- Joining and applying -----------------------------------------------------------------------------------

  function Occupants(b: Books, tier: TierId): set<Id> {
    set a | a in b.members && b.members[a].tier == Some(tier)
  }

  predicate IsTaken(b: Books, platform: PlatformId) {
    exists a :: a in b.members && b.members[a].platform == platform
  }

  /** An open covenant takes a newcomer into a tier it has, while the tier has a slot left, as a pending member who owns nothing; a
    * known platform only leaves its identity. */
  lemma JoinReceipt(b: Books, platform: PlatformId, tier: TierId)
    ensures var b' := History.Step(b, History.Join(platform, tier));
            var hasRoom := b.state == OPEN && tier in b.tiers
                           && (b.tiers[tier].maxSlots.Some? ==> |Occupants(b, tier)| < b.tiers[tier].maxSlots.value);
            if hasRoom && !IsTaken(b, platform)
            then b' == b.(identities := b.identities + {platform}, next := b.next + 1,
                          members := b.members[b.next := Member(platform, Some(tier), false, MemberPending)])
            else b' == b.(identities := if hasRoom then b.identities + {platform} else b.identities)
  {
    if tier in b.tiers {
      assert Occupants(b, tier) == set a | a in b.members && b.members[a].tier == Some(tier);
    }
  }

  /** An application needs a platform, an open covenant and one of its tiers; then it is one pending request. */
  lemma ApplicationReceipt(b: Books, platform: PlatformId, tier: TierId)
    ensures var b' := History.Step(b, History.ApplyForAccess(platform, tier));
            if |platform| > 0 && |tier| > 0 && b.state == OPEN && tier in b.tiers
            then b' == b.(identities := b.identities + {platform}, next := b.next + 1,
                          requests := b.requests[b.next := Request(platform, tier, Pending)])
            else b' == b
  {
  }

  // ---- Whole histories --------------------------------------------------------------------------------------

  predicate IsOwnersTool(tool: ToolName) {
    tool == ApproveDraft || tool == RejectDraft || tool == ApproveAccess || tool == RejectAccess
  }

  predicate IsMember(b: Books, agent: Id) {
    agent in b.members
  }

  /** Every success row is a member's, and one of an owner's tool an owner's. */
  ghost predicate Signed(b: Books) {
    && (forall a :: a in b.members ==> a < b.next)
    && forall k :: 0 <= k < |b.logs| && b.logs[k].result == Success ==>
         b.logs[k].agent in b.members && (IsOwnersTool(b.logs[k].tool) ==> b.members[b.logs[k].agent].isOwner)
  }

  lemma RunStaysSigned(b: Books, call: Call, now: int, prune: bool, fault: Fault)
    requires Signed(b)
    ensures Signed(Run(b, call, now, prune, fault).0)
  {
    hide Run;
    var (b', outcome) := Run(b, call, now, prune, fault);
    RunIsRecorded(b, call, now, prune, fault);
    if !outcome.Refused? {
      RunIsAuthorized(b, call, now, prune, fault);
    }
  }

  /** DRAFT, OPEN, ACTIVE, LOCKED, SETTLED. */
  predicate IsAt(s: Lifecycle, place: nat) {
    && (s == DRAFT <==> place == 0) && (s == OPEN <==> place == 1) && (s == ACTIVE <==> place == 2)
    && (s == LOCKED <==> place == 3) && (s == SETTLED <==> place == 4)
  }

  /** A transition moves one place on, or changes nothing; it leaves DRAFT with a tier only. */
  lemma TransitionIsNext(b: Books, target: Lifecycle, from: nat, to: nat)
    requires IsAt(b.state, from) && IsAt(target, to)
    ensures var b' := History.Step(b, History.Transition(target));
            if to == from + 1 && (b.state == DRAFT ==> b.tiers != map[]) then b' == b.(state := target) else b' == b
  {
  }

  function PlaceOf(s: Lifecycle): (place: nat)
    ensures IsAt(s, place)
  {
    match s
    case DRAFT => 0
    case OPEN => 1
    case ACTIVE => 2
    case LOCKED => 3
    case SETTLED => 4
  }

  /** Budget operations write the counter: it is created once with nothing spent, and a rebuild keeps its limit. */
  lemma BudgetReceipt(b: Books, limit: int)
    ensures History.Step(b, History.SetBudget(limit)) == b.(counter := if b.counter.None? then Some(Counter(limit, 0)) else b.counter)
    ensures var b' := History.Step(b, History.RebuildBudget);
            b' == b.(counter := b'.counter) && (b.counter.None? <==> b'.counter.None?)
            && (b.counter.Some? ==> b'.counter == Some(Counter(b.counter.value.limit, RebuiltSpend(b.logs, b.ledger))))
  {
    hide RebuiltSpend;
  }

  /** A tier is added once, with no negative fee. */
  lemma TierReceipt(b: Books, id: TierId, terms: Tier)
    ensures History.Step(b, History.AddTier(id, terms))
         == b.(tiers := if id !in b.tiers && terms.entryFee >= 0 then b.tiers[id := terms] else b.tiers)
  {
  }

  /** A member's status changes and nothing else of it. */
  lemma StatusReceipt(b: Books, agent: Id, status: MemberStatus)
    ensures var b' := History.Step(b, History.SetMemberStatus(agent, status));
            b' == b.(members := b'.members) && b'.members.Keys == b.members.Keys
            && forall a :: a in b.members ==> b'.members[a] == if a == agent then b.members[a].(status := status) else b.members[a]
  {
  }

  lemma OperationReceipts(b: Books, op: History.Op)
    requires !op.RunTool?
    ensures var b' := History.Step(b, op);
            && (op.SetBudget? || op.RebuildBudget? ==> b' == b.(counter := b'.counter))
            && (op.AddTier? ==> b' == b.(tiers := b'.tiers))
            && (op.SetMemberStatus? ==> b' == b.(members := b'.members))
            && (op.Transition? ==> b' == b.(state := b'.state))
  {
    hide History.Step;
    match op
    case SetBudget(limit) => BudgetReceipt(b, limit);
    case RebuildBudget => BudgetReceipt(b, 0);
    case AddTier(id, terms) => TierReceipt(b, id, terms);
    case SetMemberStatus(agent, status) => StatusReceipt(b, agent, status);
    case Transition(target) => TransitionIsNext(b, target, PlaceOf(b.state), PlaceOf(target));
    case _ =>
  }

  lemma AdministrationKeepsOwners(b: Books, op: History.Op)
    requires !op.RunTool? && forall a :: a in b.members ==> a < b.next
    ensures var b' := History.Step(b, op); b'.logs == b.logs && KeepsOwners(b, b')
  {
    hide History.Step, Occupants;
    OperationReceipts(b, op);
    if op.Join? {
      JoinReceipt(b, op.platform, op.tier);
    } else if op.ApplyForAccess? {
      ApplicationReceipt(b, op.platform, op.tier);
    } else if op.SetMemberStatus? {
      StatusReceipt(b, op.agent, op.status);
    }
  }

  lemma AdministrationStaysSigned(b: Books, op: History.Op)
    requires Signed(b) && !op.RunTool?
    ensures Signed(History.Step(b, op)) && KeepsOwners(b, History.Step(b, op))
  {
    hide History.Step;
    AdministrationKeepsOwners(b, op);
  }

  lemma {:induction false} StaysSigned(b: Books, ops: seq<History.Op>)
    requires Signed(b)
    ensures Signed(History.Replay(b, ops)) && KeepsOwners(b, History.Replay(b, ops))
  {
    if ops != [] {
      hide Signed, History.Step;
      var before, op := History.Replay(b, ops[..|ops| - 1]), ops[|ops| - 1];
      StaysSigned(b, ops[..|ops| - 1]);
      if op.RunTool? {
        RunStaysSigned(before, op.call, op.now, op.prune, op.fault);
        SignedKnowsIds(before);
        RunIsRecorded(before, op.call, op.now, op.prune, op.fault);
        RunIsStep(before, op);
      } else {
        AdministrationStaysSigned(before, op);
      }
    }
  }

  lemma SignedKnowsIds(b: Books)
    requires Signed(b)
    ensures forall a :: a in b.members ==> a < b.next
  {
  }

  lemma RunIsStep(b: Books, op: History.Op)
    requires op.RunTool?
    ensures History.Step(b, op) == Run(b, op.call, op.now, op.prune, op.fault).0
  {
  }

  /** The success row of an approval, an owner's, stands behind this ledger row. */
  ghost predicate IsOwnersAward(b: Books, row: LedgerRow) {
    exists k :: 0 <= k < |b.logs| && b.logs[k].id == row.logId && b.logs[k].result == Success && b.logs[k].tool == ApproveDraft
                && b.logs[k].tokens == row.delta && b.logs[k].agent in b.members && b.members[b.logs[k].agent].isOwner
  }

  /** Main result, authority over histories: from a covenant without logged activity, whatever runs, fails or is administered, every
    * award in the ledger was logged by an owner, and only those are owners who were from the start. */
  lemma AwardsAreOwners(b: Books, ops: seq<History.Op>, i: nat)
    requires History.Idle(b) && forall a :: a in b.members ==> a < b.next
    requires i < |History.Replay(b, ops).ledger| && History.Replay(b, ops).ledger[i].source == Passage
    ensures IsOwnersAward(History.Replay(b, ops), History.Replay(b, ops).ledger[i])
    ensures forall a :: a in History.Replay(b, ops).members && History.Replay(b, ops).members[a].isOwner ==> a in b.members && b.members[a].isOwner
  {
    var b' := History.Replay(b, ops);
    History.StartsInAgreement(b);
    History.TokensAreConserved(b, ops, {});
    StaysSigned(b, ops);
    hide History.Replay;
    assert Accounting.IsBacked(b'.logs, b'.ledger[i]);
    var k: nat :| k < |b'.logs| && Accounting.Backs(b'.logs[k], b'.ledger[i]);
    assert b'.logs[k].id == b'.ledger[i].logId;
  }

  // ---- The lifecycle ----------------------------------------------------------------------------------------

  /** What runs never write: the state, the terms and the rate policy. */
  predicate SameTerms(b: Books, b': Books) {
    b'.state == b.state && b'.currency == b.currency && b'.rule == b.rule && b'.tiers == b.tiers && b'.hourlyLimit == b.hourlyLimit
  }

  lemma BookkeepingKeepsTerms(b: Books, reservation: Option<Id>, status: ReservationStatus, estimate: int, logId: Id)
    ensures SameTerms(b, SetReservation(b, reservation, status)) && SameTerms(b, RecordSpend(b, estimate, reservation, logId))
  {
  }

  lemma ApplyKeepsTerms(b: Books, call: Call, work: Work, tokens: int, logId: Id, fault: Fault)
    ensures SameTerms(b, Apply(b, call, work, tokens, logId, fault).0)
  {
    hide HasPlatform, Post;
  }

  lemma CommitKeepsTerms(b: Books, call: Call, work: Work, effects: Effects, reservation: Option<Id>, fault: Fault)
    ensures SameTerms(b, Commit(b, call, work, effects, reservation, fault).0)
  {
    hide SetReservation, RecordSpend, Apply, Estimate;
    var logged := AppendLog(b, call, Success, effects.tokens, effects.cost);
    ApplyKeepsTerms(logged, call, work, effects.tokens, b.next, fault);
    var applied := Apply(logged, call, work, effects.tokens, b.next, fault).0;
    BookkeepingKeepsTerms(applied, reservation, Released, Estimate(call), b.next);
  }

  lemma PerformKeepsTerms(b: Books, call: Call, reservation: Option<Id>, fault: Fault)
    ensures SameTerms(b, Perform(b, call, reservation, fault).0)
  {
    hide FinalEffects, SetReservation, Commit, ResolveDraft, CostOfLog;
    BookkeepingKeepsTerms(b, reservation, Released, 0, 0);
    if Execute(b, call).Some? {
      var (executed, work) := Execute(b, call).value;
      BookkeepingKeepsTerms(executed, reservation, Released, 0, 0);
      CommitKeepsTerms(executed, call, work, FinalEffects(executed, call, work), reservation, fault);
    }
  }

  lemma GatesKeepTerms(b: Books, call: Call, now: int, prune: bool)
    ensures SameTerms(b, Gate(b, call, now, prune).0) && SameTerms(b, LogRefusal(b, call))
    ensures Reserve(b, Estimate(call)).Some? ==> SameTerms(b, Reserve(b, Estimate(call)).value.0)
  {
    hide RateLimit.CheckAndIncrement, Estimate;
  }

  lemma RunKeepsTerms(b: Books, call: Call, now: int, prune: bool, fault: Fault)
    ensures SameTerms(b, Run(b, call, now, prune, fault).0)
  {
    hide Perform, Gate, Reserve, LogRefusal, Estimate, Permitted, IsActive;
    var gated := Gate(b, call, now, prune).0;
    GatesKeepTerms(b, call, now, prune);
    GatesKeepTerms(gated, call, now, prune);
    if Reserve(gated, Estimate(call)).Some? {
      var (reserved, reservation) := Reserve(gated, Estimate(call)).value;
      PerformKeepsTerms(reserved, call, reservation, fault);
    }
  }

  /** Tiers stay as they were added. */
  ghost predicate KeepsTiers(b: Books, b': Books) {
    forall id :: id in b.tiers ==> id in b'.tiers && b'.tiers[id] == b.tiers[id]
  }

  ghost predicate FeesAreFair(b: Books) {
    forall id :: id in b.tiers ==> b.tiers[id].entryFee >= 0
  }

  lemma AdministrationMovesOn(b: Books, op: History.Op, from: nat, to: nat)
    requires !op.RunTool? && IsAt(b.state, from) && IsAt(History.Step(b, op).state, to)
    ensures from <= to && KeepsTiers(b, History.Step(b, op)) && (FeesAreFair(b) ==> FeesAreFair(History.Step(b, op)))
  {
    hide History.Step, Occupants;
    OperationReceipts(b, op);
    if op.Join? {
      JoinReceipt(b, op.platform, op.tier);
    } else if op.ApplyForAccess? {
      ApplicationReceipt(b, op.platform, op.tier);
    } else if op.AddTier? {
      TierReceipt(b, op.id, op.terms);
    } else if op.Transition? {
      TransitionIsNext(b, op.target, from, PlaceOf(op.target));
    }
  }

  /** Main result, lifecycle: over every history the state only moves on through DRAFT, OPEN, ACTIVE, LOCKED and SETTLED, tiers
    * stay as they were added, and no entry fee is negative. */
  lemma {:induction false} LifecycleMovesOn(b: Books, ops: seq<History.Op>, from: nat, to: nat)
    requires IsAt(b.state, from) && IsAt(History.Replay(b, ops).state, to) && FeesAreFair(b)
    ensures from <= to && KeepsTiers(b, History.Replay(b, ops)) && FeesAreFair(History.Replay(b, ops))
  {
    if ops != [] {
      var before, op := History.Replay(b, ops[..|ops| - 1]), ops[|ops| - 1];
      var between := PlaceOf(before.state);
      LifecycleMovesOn(b, ops[..|ops| - 1], from, between);
      if op.RunTool? {
        RunKeepsTerms(before, op.call, op.now, op.prune, op.fault);
        hide Run;
      } else {
        hide History.Step;
        AdministrationMovesOn(before, op, between, to);
      }
    }
  }

  // ---- Slots ------------------------------------------------------------------------------------------------

  lemma OccupantsGrow(b: Books, b': Books, agent: Id, member: Member, tier: TierId)
    requires agent !in b.members && b'.members == b.members[agent := member] && member.tier == Some(tier)
    ensures Occupants(b', tier) == Occupants(b, tier) + {agent} && |Occupants(b', tier)| == |Occupants(b, tier)| + 1
  {
    assert Occupants(b', tier) == Occupants(b, tier) + {agent};
  }

  /** A join never leaves a limited tier with more members than slots. */
  lemma JoinFits(b: Books, platform: PlatformId, tier: TierId)
    requires forall a :: a in b.members ==> a < b.next
    ensures var b' := History.Step(b, History.Join(platform, tier));
            b'.members != b.members ==>
              && tier in b.tiers && |Occupants(b', tier)| == |Occupants(b, tier)| + 1
              && (b.tiers[tier].maxSlots.Some? ==> |Occupants(b', tier)| <= b.tiers[tier].maxSlots.value)
  {
    JoinReceipt(b, platform, tier);
    var b' := History.Step(b, History.Join(platform, tier));
    hide History.Step, Occupants;
    if b'.members != b.members {
      OccupantsGrow(b, b', b.next, Member(platform, Some(tier), false, MemberPending), tier);
    }
  }

  /** But the approval of an access request counts no slots: it adds its applicant to a full tier all the same. */
  lemma ApprovalsIgnoreSlots(b: Books, agent: Id, request: Id, now: int, prune: bool)
    requires forall a :: a in b.members ==> a < b.next
    requires Receipts.Acts(b, agent) && Receipts.Owns(b, agent) && request in b.requests && b.requests[request].status == Pending
    requires b.requests[request].platform in b.identities && b.requests[request].tier in b.tiers && !IsTaken(b, b.requests[request].platform)
    ensures var (b', outcome) := Run(b, CallApproveAccess(agent, request), now, prune, NoFault);
            outcome.Completed? && |Occupants(b', b.requests[request].tier)| == |Occupants(b, b.requests[request].tier)| + 1
  {
    var call, r := CallApproveAccess(agent, request), b.requests[request];
    Receipts.OwnerRunPerforms(b, call, now, prune, NoFault);
    Receipts.AccessApprovalReceipt(b, agent, request, now, prune, NoFault);
    var (b', outcome) := Run(b, call, now, prune, NoFault);
    assert outcome.Completed? by {
      hide Run;
      assert !HasPlatform(b, r.platform);
    }
    OccupantsGrow(b, b', b.next + 1, Member(r.platform, Some(r.tier), false, MemberActive), r.tier);
  }
}
