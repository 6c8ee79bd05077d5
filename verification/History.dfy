/** Whole histories of one covenant: engine runs, budget administration, applications and lifecycle, in any order. */
module History {
  import opened Common
  import opened Books
  import opened Sums
  import opened Engine
  import opened Accounting
  import Drift

  datatype Op =
    | RunTool(call: Call, now: int, prune: bool, fault: Fault)
    | SetBudget(limit: int)
    | RebuildBudget
    | ApplyForAccess(platform: PlatformId, tier: TierId)
    | Join(platform: PlatformId, tier: TierId)
    | AddTier(id: TierId, terms: Tier)
    | Transition(target: Lifecycle)
    | SetMemberStatus(agent: Id, status: MemberStatus)

  /** CreateAccessRequest: open covenants only, one pending row, no member. */
  function CreateRequest(b: Books, platform: PlatformId, tier: TierId): Books {
    if platform == "" || tier == "" || b.state != OPEN || tier !in b.tiers then b
    else b.(identities := b.identities + {platform},
            requests := b.requests[b.next := Request(platform, tier, Pending)],
            next := b.next + 1)
  }

  predicate TierIsFull(b: Books, tier: TierId)
    requires tier in b.tiers
  {
    b.tiers[tier].maxSlots.Some?
    && |set a | a in b.members && b.members[a].tier == Some(tier)| >= b.tiers[tier].maxSlots.value
  }

  /** Join; the identity is written before the member row, whose insertion fails for a known platform. */
  function JoinCovenant(b: Books, platform: PlatformId, tier: TierId): Books {
    if b.state != OPEN || tier !in b.tiers || TierIsFull(b, tier) then b
    else
      var known := b.(identities := b.identities + {platform});
      if HasPlatform(b, platform) then known
      else known.(members := b.members[b.next := Member(platform, Some(tier), false, MemberPending)], next := b.next + 1)
  }

  function NextState(s: Lifecycle): Option<Lifecycle> {
    match s
    case DRAFT => Some(OPEN)
    case OPEN => Some(ACTIVE)
    case ACTIVE => Some(LOCKED)
    case LOCKED => Some(SETTLED)
    case SETTLED => None
  }

  /** Transition. */
  function Advance(b: Books, target: Lifecycle): Books {
    if NextState(b.state) != Some(target) || (b.state == DRAFT && b.tiers == map[]) then b
    else b.(state := target)
  }

  function Step(b: Books, op: Op): Books {
    match op
    case RunTool(call, now, prune, fault) => Run(b, call, now, prune, fault).0
    case SetBudget(limit) => EnsureCounter(b, limit)
    case RebuildBudget => Rebuild(b)
    case ApplyForAccess(platform, tier) => CreateRequest(b, platform, tier)
    case Join(platform, tier) => JoinCovenant(b, platform, tier)
    case AddTier(id, terms) => if terms.entryFee < 0 || id in b.tiers then b else b.(tiers := b.tiers[id := terms])
    case Transition(target) => Advance(b, target)
    case SetMemberStatus(agent, status) =>
      if agent !in b.members then b else b.(members := b.members[agent := b.members[agent].(status := status)])
  }

  /** What the operations beside runs may write. */
  lemma AdministrationWrites(b: Books, op: Op)
    requires !op.RunTool?
    ensures BesideRuns(b, Step(b, op))
  {
    hide Run, CreateRequest, JoinCovenant, RebuiltSpend;
    if op.ApplyForAccess? {
      ApplyingWrites(b, op.platform, op.tier);
    } else if op.Join? {
      JoiningWrites(b, op.platform, op.tier);
    }
  }

  lemma ApplyingWrites(b: Books, platform: PlatformId, tier: TierId)
    ensures BesideRuns(b, CreateRequest(b, platform, tier))
  {
  }

  lemma JoiningWrites(b: Books, platform: PlatformId, tier: TierId)
    ensures BesideRuns(b, JoinCovenant(b, platform, tier))
  {
    hide HasPlatform, TierIsFull;
  }

  /** Logs, ledger, drafts, reservations and rate buckets are the runs' own. */
  ghost predicate BesideRuns(b: Books, b': Books) {
    && b'.logs == b.logs && b'.ledger == b.ledger && b'.pending == b.pending && b'.reservations == b.reservations
    && b'.buckets == b.buckets && b'.hourlyLimit == b.hourlyLimit && b'.next >= b.next
  }

  function Replay(b: Books, ops: seq<Op>): Books {
    if ops == [] then b else Step(Replay(b, ops[..|ops| - 1]), ops[|ops| - 1])
  }

  function OutcomeOf(b: Books, op: Op): Outcome {
    if op.RunTool? then Run(b, op.call, op.now, op.prune, op.fault).1 else Refused
  }

  /** The log ids of the runs that failed in Step 6. */
  function Orphans(b: Books, ops: seq<Op>, before: set<Id>): set<Id> {
    if ops == [] then before
    else OrphansAfter(Orphans(b, ops[..|ops| - 1], before), OutcomeOf(Replay(b, ops[..|ops| - 1]), ops[|ops| - 1]))
  }

  /** Those of them the counter missed: the ones since the last rebuild. */
  function Missed(b: Books, ops: seq<Op>, before: set<Id>): set<Id> {
    if ops == [] then before
    else if ops[|ops| - 1].RebuildBudget? then {}
    else OrphansAfter(Missed(b, ops[..|ops| - 1], before), OutcomeOf(Replay(b, ops[..|ops| - 1]), ops[|ops| - 1]))
  }

  /** Operations of the repository: its tools, and failures other than in the middle of a settlement. */
  predicate Ordinary(op: Op) {
    op.RunTool? ==> LeavesCostToEngine(op.call) && SettlesOrNot(op.fault)
  }

  lemma OthersKeepMoney(b: Books, op: Op)
    requires !op.RunTool? && !op.SetBudget? && !op.RebuildBudget?
    ensures SameMoney(b, Step(b, op))
  {
    hide Run, JoinCovenant, CreateRequest;
    AdministrationWrites(b, op);
    if op.Join? {
      JoiningKeepsCounter(b, op.platform, op.tier);
    }
    if op.ApplyForAccess? {
      ApplyingKeepsCounter(b, op.platform, op.tier);
    }
  }

  lemma JoiningKeepsCounter(b: Books, platform: PlatformId, tier: TierId)
    ensures JoinCovenant(b, platform, tier).counter == b.counter
  {
    hide HasPlatform, TierIsFull;
  }

  lemma ApplyingKeepsCounter(b: Books, platform: PlatformId, tier: TierId)
    ensures CreateRequest(b, platform, tier).counter == b.counter
  {
  }

  lemma StepConservesTokens(b: Books, op: Op, orphans: set<Id>)
    requires Conserved(b, orphans)
    ensures Conserved(Step(b, op), OrphansAfter(orphans, OutcomeOf(b, op)))
  {
    hide Run, Conserved, Kept, JoinCovenant, CreateRequest, Rebuild, EnsureCounter;
    if op.RunTool? {
      ConservedIsKept(b, orphans);
      RunConservesTokens(b, op.call, op.now, op.prune, op.fault, orphans);
    } else if op.SetBudget? || op.RebuildBudget? {
      BudgetKeepsTables(b, op);
      ReservationsAside(b, Step(b, op), orphans);
    } else {
      OthersKeepMoney(b, op);
      SameMoneyKeeps(b, Step(b, op), orphans);
    }
  }

  lemma BudgetKeepsTables(b: Books, op: Op)
    requires op.SetBudget? || op.RebuildBudget?
    ensures Step(b, op).logs == b.logs && Step(b, op).ledger == b.ledger && Step(b, op).next == b.next
  {
    hide Run, RebuiltSpend;
  }

  lemma ConservedIsKept(b: Books, orphans: set<Id>)
    requires Conserved(b, orphans)
    ensures Kept(b, orphans)
  {
  }

  /** Main result: whatever runs, fails or is administered, the confirmed balances equal the tokens_delta of the
    * un-rejected approvals minus the un-rejected entry fees. */
  lemma {:induction false} TokensAreConserved(b: Books, ops: seq<Op>, orphans: set<Id>)
    requires Conserved(b, orphans)
    ensures Conserved(Replay(b, ops), Orphans(b, ops, orphans))
  {
    hide Conserved, Step;
    if ops != [] {
      TokensAreConserved(b, ops[..|ops| - 1], orphans);
      StepConservesTokens(Replay(b, ops[..|ops| - 1]), ops[|ops| - 1], Orphans(b, ops[..|ops| - 1], orphans));
    }
  }

  lemma StepKeepsCounter(b: Books, op: Op, orphans: set<Id>, missed: set<Id>)
    requires Matched(b, orphans, missed) && Ordinary(op)
    ensures Matched(Step(b, op), OrphansAfter(orphans, OutcomeOf(b, op)),
                    if op.RebuildBudget? then {} else OrphansAfter(missed, OutcomeOf(b, op)))
  {
    MatchedHasCounter(b, orphans, missed);
    if op.RunTool? {
      hide Run, Matched;
      RunKeepsCounter(b, op.call, op.now, op.prune, op.fault, orphans, missed);
    } else if op.RebuildBudget? {
      RebuildMatches(b, orphans);
    } else if !op.SetBudget? {
      OthersKeepMoney(b, op);
      SameMoneyKeeps(b, Step(b, op), orphans);
    }
  }

  lemma MatchedHasCounter(b: Books, orphans: set<Id>, missed: set<Id>)
    requires Matched(b, orphans, missed)
    ensures Kept(b, orphans) && CostsNonNegative(b.logs) && b.counter.Some?
  {
  }

  /** Main result: with a counter present, after any history of the repository's tools, budget_spent falls short of the
    * rebuilt total by exactly the costs of the runs that failed in Step 6 since the last rebuild; so it equals the
    * rebuilt total when there are none, and always right after a rebuild. */
  lemma {:induction false} CounterFollowsLog(b: Books, ops: seq<Op>, orphans: set<Id>, missed: set<Id>)
    requires Matched(b, orphans, missed)
    requires forall i :: 0 <= i < |ops| ==> Ordinary(ops[i])
    ensures Matched(Replay(b, ops), Orphans(b, ops, orphans), Missed(b, ops, missed))
    ensures var b' := Replay(b, ops);
            && b'.counter.Some?
            && RebuiltSpend(b'.logs, b'.ledger) - b'.counter.value.spent == TotalWithin(b'.logs, CostOf, Missed(b, ops, missed))
            && (Missed(b, ops, missed) == {} ==> b'.counter.value.spent == RebuiltSpend(b'.logs, b'.ledger))
  {
    hide Matched, Step, Ordinary, RebuiltSpend;
    if ops != [] {
      var n := |ops| - 1;
      CounterFollowsLog(b, ops[..n], orphans, missed);
      assert ops[..n + 1] == ops;
      StepKeepsCounter(Replay(b, ops[..n]), ops[n], Orphans(b, ops[..n], orphans), Missed(b, ops[..n], missed));
    }
    MatchedHasCounter(Replay(b, ops), Orphans(b, ops, orphans), Missed(b, ops, missed));
    GapIsOrphanCost(Replay(b, ops), Orphans(b, ops, orphans), Missed(b, ops, missed));
    NothingWithinNothing(Replay(b, ops).logs);
  }

  lemma {:induction false} NothingWithinNothing(logs: seq<LogRow>)
    ensures TotalWithin(logs, CostOf, {}) == 0
  {
    if logs != [] {
      NothingWithinNothing(logs[..|logs| - 1]);
    }
  }

  /** A covenant without logged activity. */
  predicate Idle(b: Books) {
    b.logs == [] && b.ledger == []
  }

  /** A new covenant, its budget set before the first run, starts in agreement. */
  lemma StartsInAgreement(b: Books)
    requires Idle(b)
    ensures Conserved(b, {})
    ensures b.counter.Some? && b.counter.value.spent == 0 ==> Matched(b, {}, {})
  {
  }

  /** An active covenant with one owner, one pending draft, a budget of 100 and nothing spent. */
  const SAMPLE := Books(ACTIVE, "USD", None, 0, map[], {}, map[1 := Member("owner", None, true, MemberActive)], map[],
                        map[], [], [], map[7 := 1], Some(Counter(100, 0)), map[], 10)

  /** The accounting of a failed Step 7 is not stable: the award is in the ledger but was never charged, so rejecting it
    * refunds money that was not spent, the clamp at zero absorbs the refund, and the gap is no longer the logged cost. */
  lemma UnsettledAwardCanBeRefunded()
    ensures var (b1, outcome1) := Run(SAMPLE, CallApprove(1, ByDraft(7), 3, 1.0, None), 0, false, SettleFails);
            var (b2, outcome2) := Run(b1, CallReject(1, 11), 0, false, NoFault);
            && outcome1 == Unsettled(11) && b1.counter == SAMPLE.counter && Drift.Gap(b1) == 5
            && outcome2.Completed? && b2.counter == SAMPLE.counter && Drift.Gap(b2) == 0
  {
    hide Run, Kept, Conserved, Drift.Gap;
    var approve := CallApprove(1, ByDraft(7), 3, 1.0, None);
    SettleFailureStrandsCost();
    StartsInAgreement(SAMPLE);
    ConservedIsKept(SAMPLE, {});
    RunConservesTokens(SAMPLE, approve, 0, false, SettleFails, {});
    UnchargedRefundCompletes(Run(SAMPLE, approve, 0, false, SettleFails).0);
  }

  lemma SettleFailureStrandsCost()
    ensures var (b1, outcome1) := Run(SAMPLE, CallApprove(1, ByDraft(7), 3, 1.0, None), 0, false, SettleFails);
            && outcome1 == Unsettled(11) && b1.counter == SAMPLE.counter && b1.members == SAMPLE.members
            && b1.logs == [LogRow(11, 1, ApproveDraft, Success, 3, 5)]
            && b1.ledger == [LedgerRow(1, 3, 3, Passage, 7, 11, Confirmed)]
            && Drift.Gap(b1) == 5
  {
    var (b1, outcome1) := Run(SAMPLE, CallApprove(1, ByDraft(7), 3, 1.0, None), 0, false, SettleFails);
    assert b1.logs == [LogRow(11, 1, ApproveDraft, Success, 3, 5)];
    assert b1.ledger == [LedgerRow(1, 3, 3, Passage, 7, 11, Confirmed)];
  }

  lemma UnchargedRefundCompletes(b: Books)
    requires Kept(b, {}) && b.members == SAMPLE.members && b.counter == SAMPLE.counter
    requires b.logs == [LogRow(11, 1, ApproveDraft, Success, 3, 5)]
    requires b.ledger == [LedgerRow(1, 3, 3, Passage, 7, 11, Confirmed)]
    ensures var (b', outcome) := Run(b, CallReject(1, 11), 0, false, NoFault);
            outcome.Completed? && b'.counter == b.counter && Drift.Gap(b') == Drift.Gap(b) - 5
  {
    var reject := CallReject(1, 11);
    assert CostOfLog(b.logs, 11) == 5;
    var (b', outcome) := Run(b, reject, 0, false, NoFault);
    assert outcome.Completed? && b'.counter == b.counter by {
      assert b.ledger[0].logId == 11 && IsConfirmed(b.ledger, 11);
      hide ReversedIds, Reverse, Kept;
    }
    hide Run, Kept, Drift.Gap;
    Drift.RunDrifts(b, reject, 0, false, NoFault, {});
  }
}
