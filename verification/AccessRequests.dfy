/** The life of an access request (internal/covenant/access_request.go) over whole histories. */
module AccessRequests {
  import opened Common
  import opened Books
  import opened Engine
  import opened History
  import RateLimit

  // ---- The invariant ----------------------------------------------------------------------------

  /** An entry_fee row of this request, whatever its status. */
  predicate IsFeeOf(row: LedgerRow, request: Id) {
    row.source == EntryFee && row.ref == request
  }

  ghost predicate NoFee(ledger: seq<LedgerRow>, request: Id) {
    forall i :: 0 <= i < |ledger| ==> !IsFeeOf(ledger[i], request)
  }

  ghost predicate HasFee(ledger: seq<LedgerRow>, request: Id, agent: Id, fee: int, logId: Id) {
    exists i :: 0 <= i < |ledger| && IsFeeOf(ledger[i], request)
                && ledger[i].agent == agent && ledger[i].delta == -fee && ledger[i].logId == logId
  }

  ghost predicate FeesDistinct(ledger: seq<LedgerRow>) {
    forall i, j :: 0 <= i < j < |ledger| && ledger[i].source == EntryFee ==> !IsFeeOf(ledger[j], ledger[i].ref)
  }

  /** The member is the applicant and its entry fee, if the tier has one, is booked. */
  ghost predicate Admits(b: Books, request: Id, agent: Id, logId: Id)
    requires request in b.requests
  {
    var r := b.requests[request];
    && agent in b.members && b.members[agent].platform == r.platform && b.members[agent].tier == Some(r.tier)
    && r.tier in b.tiers
    && var fee := b.tiers[r.tier].entryFee;
       if fee > 0 then HasFee(b.ledger, request, agent, fee, logId) else NoFee(b.ledger, request)
  }

  ghost predicate Honoured(b: Books, request: Id)
    requires request in b.requests && b.requests[request].status.Approved?
  {
    exists agent :: Admits(b, request, agent, b.requests[request].status.approveLog)
  }

  /** No platform holds two memberships. */
  ghost predicate OneMembership(members: map<Id, Member>) {
    forall a, c :: a in members && c in members && members[a].platform == members[c].platform ==> a == c
  }

  ghost predicate FeesAreApproved(b: Books) {
    forall i :: 0 <= i < |b.ledger| && b.ledger[i].source == EntryFee ==>
                  b.ledger[i].ref in b.requests && b.requests[b.ledger[i].ref].status.Approved?
  }

  ghost predicate IdsKnown(b: Books) {
    (forall r :: r in b.requests ==> r < b.next) && (forall a :: a in b.members ==> a < b.next)
  }

  /** One membership a platform; a request is approved exactly when its member exists and, for a positive tier fee,
    * its one fee row; a fee row belongs to an approved request. */
  ghost predicate Orderly(b: Books) {
    && IdsKnown(b) && OneMembership(b.members) && FeesDistinct(b.ledger) && FeesAreApproved(b)
    && forall r :: r in b.requests && b.requests[r].status.Approved? ==> Honoured(b, r)
  }

  // ---- Frames -----------------------------------------------------------------------------------

  /** What every step keeps of members, tiers and resolved requests. */
  ghost predicate Grows(b: Books, b': Books) {
    && b'.next >= b.next
    && (forall a :: a in b.members ==> a in b'.members && b'.members[a].platform == b.members[a].platform
                                       && b'.members[a].tier == b.members[a].tier)
    && (forall t :: t in b.tiers ==> t in b'.tiers && b'.tiers[t] == b.tiers[t])
    && (forall r :: r in b.requests ==> r in b'.requests && SameCase(b.requests[r], b'.requests[r]))
  }

  /** Only the status may change, and only out of pending. */
  ghost predicate SameCase(r: Request, r': Request) {
    && r'.platform == r.platform && r'.tier == r.tier
    && (r.status != Pending ==> r'.status == r.status)
  }

  /** The fee rows are the same, up to their status. */
  ghost predicate SameFees(ledger: seq<LedgerRow>, ledger': seq<LedgerRow>) {
    && |ledger| <= |ledger'|
    && (forall i :: 0 <= i < |ledger| ==> ledger'[i] == ledger[i].(status := ledger'[i].status))
    && (forall i :: |ledger| <= i < |ledger'| ==> ledger'[i].source == Passage)
  }

  /** Steps that touch neither requests nor who is a member. */
  ghost predicate Aside(b: Books, b': Books) {
    Grows(b, b') && b'.requests == b.requests && b'.members.Keys == b.members.Keys && SameFees(b.ledger, b'.ledger)
  }

  lemma HonouredStays(b: Books, b': Books, request: Id)
    requires request in b.requests && b.requests[request].status.Approved? && Honoured(b, request)
    requires Grows(b, b') && SameFees(b.ledger, b'.ledger)
    ensures Honoured(b', request)
  {
    var logId := b.requests[request].status.approveLog;
    var agent :| Admits(b, request, agent, logId);
    var fee := b.tiers[b.requests[request].tier].entryFee;
    if fee > 0 {
      assert HasFee(b.ledger, request, agent, fee, logId);
      var i :| 0 <= i < |b.ledger| && IsFeeOf(b.ledger[i], request)
                && b.ledger[i].agent == agent && b.ledger[i].delta == -fee && b.ledger[i].logId == logId;
      assert IsFeeOf(b'.ledger[i], request);
      assert HasFee(b'.ledger, request, agent, fee, logId);
    }
    assert Admits(b', request, agent, logId);
  }

  lemma AsideKeepsOrder(b: Books, b': Books)
    requires Orderly(b) && Aside(b, b')
    ensures Orderly(b')
  {
    forall r | r in b'.requests && b'.requests[r].status.Approved? ensures Honoured(b', r) {
      hide Aside, Grows, SameFees, SameCase;
      assert b'.requests == b.requests && Grows(b, b') && SameFees(b.ledger, b'.ledger) by {
        assert Aside(b, b');
      }
      HonouredStays(b, b', r);
    }
    forall i | 0 <= i < |b'.ledger| && b'.ledger[i].source == EntryFee
      ensures b'.ledger[i].ref in b'.requests && b'.requests[b'.ledger[i].ref].status.Approved?
    {
      assert b.ledger[i].source == EntryFee;
    }
    forall i, j | 0 <= i < j < |b'.ledger| && b'.ledger[i].source == EntryFee ensures !IsFeeOf(b'.ledger[j], b'.ledger[i].ref) {
      assert j < |b.ledger| ==> !IsFeeOf(b.ledger[j], b.ledger[i].ref);
    }
  }

  // ---- The four operations that touch requests or members ----------------------------------------

  lemma NewMemberIsOnly(b: Books, members': map<Id, Member>, member: Member)
    requires IdsKnown(b) && OneMembership(b.members) && !HasPlatform(b, member.platform)
    requires members' == b.members[b.next := member]
    ensures OneMembership(members')
  {
  }

  lemma FeeBooked(b: Books, agent: Id, fee: int, request: Id, logId: Id)
    requires FeesDistinct(b.ledger) && NoFee(b.ledger, request) && fee > 0
    ensures var ledger' := Post(b.ledger, Fee(agent, fee, request, logId));
            FeesDistinct(ledger') && HasFee(ledger', request, agent, fee, logId)
  {
    var ledger' := Post(b.ledger, Fee(agent, fee, request, logId));
    assert IsFeeOf(ledger'[|b.ledger|], request);
  }

  lemma FeeBookedAside(b: Books, b': Books, r: Id, agent: Id, fee: int, request: Id, logId: Id)
    requires r in b.requests && b.requests[r].status.Approved? && Honoured(b, r) && r != request && Grows(b, b')
    requires b'.ledger == b.ledger || b'.ledger == Post(b.ledger, Fee(agent, fee, request, logId))
    ensures Honoured(b', r)
  {
    var log := b.requests[r].status.approveLog;
    var member :| Admits(b, r, member, log);
    var due := b.tiers[b.requests[r].tier].entryFee;
    if due > 0 {
      assert HasFee(b.ledger, r, member, due, log);
      var i :| 0 <= i < |b.ledger| && IsFeeOf(b.ledger[i], r)
                && b.ledger[i].agent == member && b.ledger[i].delta == -due && b.ledger[i].logId == log;
      assert b'.ledger[i] == b.ledger[i];
      assert HasFee(b'.ledger, r, member, due, log);
    }
    assert Admits(b', r, member, log);
  }

  lemma PendingHasNoFee(b: Books, request: Id)
    requires Orderly(b) && IsPending(b, request)
    ensures NoFee(b.ledger, request)
  {
  }

  lemma ApprovalGrows(b: Books, request: Id, logId: Id)
    requires IdsKnown(b) && ApproveRequest(b, request, logId).Some?
    ensures var b' := ApproveRequest(b, request, logId).value; Grows(b, b') && IdsKnown(b')
  {
    hide HasPlatform;
  }

  /** A successful approval admits the applicant and books its fee. */
  lemma ApprovalAdmits(b: Books, request: Id, logId: Id)
    requires Orderly(b) && ApproveRequest(b, request, logId).Some?
    ensures var b' := ApproveRequest(b, request, logId).value;
            && request in b'.requests && b'.requests[request].status == Approved(logId)
            && Admits(b', request, b.next, logId) && FeesDistinct(b'.ledger)
            && b'.members.Keys == b.members.Keys + {b.next} && b.next !in b.members
  {
    PendingHasNoFee(b, request);
    var fee := b.tiers[b.requests[request].tier].entryFee;
    if fee > 0 {
      FeeBooked(b, b.next, fee, request, logId);
    }
    hide HasPlatform, Post;
  }

  lemma ApprovalApprovesFees(b: Books, request: Id, logId: Id)
    requires FeesAreApproved(b) && ApproveRequest(b, request, logId).Some?
    ensures FeesAreApproved(ApproveRequest(b, request, logId).value)
  {
    hide HasPlatform;
    var b' := ApproveRequest(b, request, logId).value;
    forall i | 0 <= i < |b'.ledger| && b'.ledger[i].source == EntryFee
      ensures b'.ledger[i].ref in b'.requests && b'.requests[b'.ledger[i].ref].status.Approved?
    {
      if i < |b.ledger| {
        assert b'.ledger[i] == b.ledger[i];
      }
    }
  }

  lemma ApprovalKeepsOrder(b: Books, request: Id, logId: Id)
    requires Orderly(b) && ApproveRequest(b, request, logId).Some?
    ensures var b' := ApproveRequest(b, request, logId).value; Grows(b, b') && Orderly(b')
  {
    var b' := ApproveRequest(b, request, logId).value;
    var r := b.requests[request];
    ApprovalGrows(b, request, logId);
    ApprovalAdmits(b, request, logId);
    ApprovalApprovesFees(b, request, logId);
    NewMemberIsOnly(b, b'.members, Member(r.platform, Some(r.tier), false, MemberActive));
    hide Grows, HasPlatform, FeesAreApproved, FeesDistinct, IdsKnown, OneMembership, Admits;
    forall k | k in b'.requests && b'.requests[k].status.Approved? ensures Honoured(b', k) {
      if k != request {
        assert b.requests[k] == b'.requests[k];
        FeeBookedAside(b, b', k, b.next, b.tiers[r.tier].entryFee, request, logId);
      } else {
        assert Admits(b', request, b.next, logId);
      }
    }
  }

  /** A request or a member written beside the ledger. */
  lemma WrittenAsideKeepsOrder(b: Books, b': Books)
    requires Orderly(b) && Grows(b, b') && b'.ledger == b.ledger && IdsKnown(b') && OneMembership(b'.members)
    requires forall r :: r in b'.requests && b'.requests[r].status.Approved? ==> r in b.requests && b.requests[r] == b'.requests[r]
    ensures Orderly(b')
  {
    forall r | r in b'.requests && b'.requests[r].status.Approved? ensures Honoured(b', r) {
      assert SameFees(b.ledger, b'.ledger);
      hide Grows, SameFees, OneMembership, IdsKnown;
      HonouredStays(b, b', r);
    }
  }

  lemma RejectionKeepsOrder(b: Books, request: Id, logId: Id)
    requires Orderly(b) && RejectRequest(b, request, logId).Some?
    ensures var b' := RejectRequest(b, request, logId).value; Grows(b, b') && Orderly(b')
  {
    WrittenAsideKeepsOrder(b, RejectRequest(b, request, logId).value);
  }

  lemma ApplicationKeepsOrder(b: Books, platform: PlatformId, tier: TierId)
    requires Orderly(b)
    ensures Grows(b, CreateRequest(b, platform, tier)) && Orderly(CreateRequest(b, platform, tier))
  {
    WrittenAsideKeepsOrder(b, CreateRequest(b, platform, tier));
  }

  lemma JoiningWrites(b: Books, platform: PlatformId, tier: TierId)
    requires IdsKnown(b) && OneMembership(b.members)
    ensures var b' := JoinCovenant(b, platform, tier);
            Grows(b, b') && IdsKnown(b') && OneMembership(b'.members) && b'.requests == b.requests && b'.ledger == b.ledger
  {
    var member := Member(platform, Some(tier), false, MemberPending);
    if !HasPlatform(b, platform) {
      NewMemberIsOnly(b, b.members[b.next := member], member);
    }
    hide TierIsFull, HasPlatform, OneMembership;
  }

  lemma JoiningKeepsOrder(b: Books, platform: PlatformId, tier: TierId)
    requires Orderly(b)
    ensures Grows(b, JoinCovenant(b, platform, tier)) && Orderly(JoinCovenant(b, platform, tier))
  {
    JoiningWrites(b, platform, tier);
    hide JoinCovenant, Grows, IdsKnown, OneMembership, Honoured, FeesAreApproved, FeesDistinct;
    WrittenAsideKeepsOrder(b, JoinCovenant(b, platform, tier));
  }

  // ---- The engine -------------------------------------------------------------------------------

  ghost predicate Moves(b: Books, b': Books) {
    Orderly(b) ==> Grows(b, b') && Orderly(b')
  }

  lemma AsideMoves(b: Books, b': Books)
    requires Aside(b, b')
    ensures Moves(b, b')
  {
    hide Grows, Orderly;
    if Orderly(b) {
      AsideKeepsOrder(b, b');
    }
  }

  lemma MovesOn(b: Books, b': Books, b'': Books)
    requires Moves(b, b') && Moves(b', b'')
    ensures Moves(b, b'')
  {
    hide Orderly;
  }

  lemma ReservingIsAside(b: Books, reservation: Option<Id>, status: ReservationStatus)
    ensures Aside(b, SetReservation(b, reservation, status))
  {
  }

  lemma LoggingIsAside(b: Books, call: Call, result: LogResult, tokens: int, cost: int)
    ensures Aside(b, AppendLog(b, call, result, tokens, cost))
  {
  }

  lemma ChargingIsAside(b: Books, estimate: int, reservation: Option<Id>, logId: Id)
    ensures Aside(b, RecordSpend(b, estimate, reservation, logId))
  {
  }

  lemma GatingIsAside(b: Books, call: Call, now: int, prune: bool)
    ensures Aside(b, Gate(b, call, now, prune).0)
  {
    hide RateLimit.CheckAndIncrement;
  }

  lemma ReservationIsAside(b: Books, estimate: int)
    requires Reserve(b, estimate).Some?
    ensures Aside(b, Reserve(b, estimate).value.0)
  {
  }

  lemma ExecutingIsAside(b: Books, call: Call)
    requires Execute(b, call).Some?
    ensures Aside(b, Execute(b, call).value.0)
  {
    hide AgentOfLog, CostOfLog, ResolveDraft;
  }

  lemma ApplyMoves(b: Books, call: Call, work: Work, tokens: int, logId: Id, fault: Fault)
    ensures Moves(b, Apply(b, call, work, tokens, logId, fault).0)
  {
    hide ApproveRequest, RejectRequest;
    var b' := Apply(b, call, work, tokens, logId, fault).0;
    if work.ToApprove? && b' != b {
      ApprovalMoves(b, work.request, logId);
    } else if work.ToReject? && b' != b {
      RejectionMoves(b, work.request, logId);
    } else {
      AsideMoves(b, b');
    }
  }

  lemma ApprovalMoves(b: Books, request: Id, logId: Id)
    requires ApproveRequest(b, request, logId).Some?
    ensures Moves(b, ApproveRequest(b, request, logId).value)
  {
    hide ApproveRequest, Orderly, Grows;
    if Orderly(b) {
      ApprovalKeepsOrder(b, request, logId);
    }
  }

  lemma RejectionMoves(b: Books, request: Id, logId: Id)
    requires RejectRequest(b, request, logId).Some?
    ensures Moves(b, RejectRequest(b, request, logId).value)
  {
    hide Orderly, Grows, RejectRequest;
    if Orderly(b) {
      RejectionKeepsOrder(b, request, logId);
    }
  }

  lemma CommitMoves(b: Books, call: Call, work: Work, effects: Effects, reservation: Option<Id>, fault: Fault)
    ensures Moves(b, Commit(b, call, work, effects, reservation, fault).0)
  {
    hide Moves, Aside, Apply, SetReservation, RecordSpend, AppendLog, Estimate;
    var logged := AppendLog(b, call, Success, effects.tokens, effects.cost);
    LoggingIsAside(b, call, Success, effects.tokens, effects.cost);
    AsideMoves(b, logged);
    ApplyMoves(logged, call, work, effects.tokens, b.next, fault);
    var applied := Apply(logged, call, work, effects.tokens, b.next, fault).0;
    MovesOn(b, logged, applied);
    ReservingIsAside(applied, reservation, Released);
    ChargingIsAside(applied, Estimate(call), reservation, b.next);
    AsideMoves(applied, SetReservation(applied, reservation, Released));
    AsideMoves(applied, RecordSpend(applied, Estimate(call), reservation, b.next));
    var b' := Commit(b, call, work, effects, reservation, fault).0;
    if b' != applied {
      MovesOn(b, applied, b');
    }
  }

  lemma RefusingMoves(b: Books, call: Call, reservation: Option<Id>)
    ensures Moves(b, SetReservation(b, reservation, Released))
    ensures Moves(b, LogRefusal(b, call))
    ensures Moves(b, LogRefusal(SetReservation(b, reservation, Released), call))
  {
    hide Moves, Aside, SetReservation, AppendLog;
    var released := SetReservation(b, reservation, Released);
    ReservingIsAside(b, reservation, Released);
    AsideMoves(b, released);
    LoggingIsAside(b, call, Refusal, 0, 0);
    LoggingIsAside(released, call, Refusal, 0, 0);
    AsideMoves(b, LogRefusal(b, call));
    AsideMoves(released, LogRefusal(released, call));
    MovesOn(b, released, LogRefusal(released, call));
  }

  lemma PerformMoves(b: Books, call: Call, reservation: Option<Id>, fault: Fault)
    ensures Moves(b, Perform(b, call, reservation, fault).0)
  {
    hide Moves, Aside, Commit, Execute, FinalEffects, SetReservation, LogRefusal;
    RefusingMoves(b, call, reservation);
    if Execute(b, call).Some? {
      var (executed, work) := Execute(b, call).value;
      ExecutingIsAside(b, call);
      AsideMoves(b, executed);
      RefusingMoves(executed, call, reservation);
      CommitMoves(executed, call, work, FinalEffects(executed, call, work), reservation, fault);
      MovesOn(b, executed, Perform(b, call, reservation, fault).0);
    }
  }

  lemma StayingMoves(b: Books)
    ensures Moves(b, b)
  {
    hide Orderly;
  }

  lemma RunMoves(b: Books, call: Call, now: int, prune: bool, fault: Fault)
    ensures Moves(b, Run(b, call, now, prune, fault).0)
  {
    StayingMoves(b);
    hide Moves, Aside, Perform, Gate, Reserve, Estimate, SetReservation, LogRefusal, Permitted;
    var gated := Gate(b, call, now, prune).0;
    GatingIsAside(b, call, now, prune);
    AsideMoves(b, gated);
    RefusingMoves(gated, call, None);
    MovesOn(b, gated, LogRefusal(gated, call));
    if Reserve(gated, Estimate(call)).Some? {
      var (reserved, reservation) := Reserve(gated, Estimate(call)).value;
      ReservationIsAside(gated, Estimate(call));
      AsideMoves(gated, reserved);
      PerformMoves(reserved, call, reservation, fault);
      MovesOn(gated, reserved, Perform(reserved, call, reservation, fault).0);
      MovesOn(b, gated, Perform(reserved, call, reservation, fault).0);
    }
  }

  lemma StepMoves(b: Books, op: Op)
    ensures Moves(b, Step(b, op))
  {
    match op
    case RunTool(call, now, prune, fault) =>
      hide Run, Moves;
      RunMoves(b, call, now, prune, fault);
    case ApplyForAccess(platform, tier) =>
      hide Orderly, CreateRequest, Grows;
      if Orderly(b) { ApplicationKeepsOrder(b, platform, tier); }
    case Join(platform, tier) =>
      hide Orderly, JoinCovenant, Grows;
      if Orderly(b) { JoiningKeepsOrder(b, platform, tier); }
    case _ =>
      AdministrationIsAside(b, op);
      hide Step, Moves;
      AsideMoves(b, Step(b, op));
  }

  lemma AdministrationIsAside(b: Books, op: Op)
    requires !op.RunTool? && !op.ApplyForAccess? && !op.Join?
    ensures Aside(b, Step(b, op))
  {
    hide Run, CreateRequest, JoinCovenant, RebuiltSpend, Aside;
    if op.SetMemberStatus? && op.agent in b.members {
      MemberStatusIsAside(b, op.agent, op.status);
    } else {
      SameTablesIsAside(b, Step(b, op));
    }
  }

  lemma SameTablesIsAside(b: Books, b': Books)
    requires b'.members == b.members && b'.requests == b.requests && b'.ledger == b.ledger && b'.next == b.next
    requires forall t :: t in b.tiers ==> t in b'.tiers && b'.tiers[t] == b.tiers[t]
    ensures Aside(b, b')
  {
  }

  lemma MemberStatusIsAside(b: Books, agent: Id, status: MemberStatus)
    requires agent in b.members
    ensures Aside(b, b.(members := b.members[agent := b.members[agent].(status := status)]))
  {
  }

  // ---- Whole histories --------------------------------------------------------------------------

  /** Main result: over every history, with approvals failing anywhere, each platform holds at most one membership, a
    * request is approved exactly when its member and its one entry fee row exist, a request leaves pending at most once
    * and its terms never change. */
  lemma {:induction false} RequestsResolveOnce(b: Books, ops: seq<Op>)
    requires Orderly(b)
    ensures Orderly(Replay(b, ops)) && Grows(b, Replay(b, ops))
  {
    if ops != [] {
      var before := Replay(b, ops[..|ops| - 1]);
      RequestsResolveOnce(b, ops[..|ops| - 1]);
      StepMoves(before, ops[|ops| - 1]);
      hide Orderly, Step;
      MovesOn(b, before, Replay(b, ops));
    }
  }

  /** A request that is not approved has no fee row, in every reachable state. */
  lemma OnlyApprovedRequestsPay(b: Books, ops: seq<Op>, request: Id)
    requires Orderly(b)
    ensures var b' := Replay(b, ops);
            !(request in b'.requests && b'.requests[request].status.Approved?) ==> NoFee(b'.ledger, request)
  {
    hide Replay;
    RequestsResolveOnce(b, ops);
  }

  /** What a permitted approval comes to: the transaction of Step 6 or nothing but the log row. */
  function Approve(b: Books, call: Call, fault: Fault): (Books, Outcome)
    requires call.CallApproveAccess?
  {
    var logged := AppendLog(b, call, Success, 0, 0);
    if !Permitted(b, call) then (LogRefusal(b, call), Refused)
    else if fault == LogFails then (b, Refused)
    else if fault == ApplyFails || ApproveRequest(logged, call.request, b.next).None? then (logged, Aborted(b.next))
    else (ApproveRequest(logged, call.request, b.next).value, Completed(b.next, 0, 0))
  }

  lemma RunApproves(b: Books, call: Call, now: int, prune: bool, fault: Fault)
    requires call.CallApproveAccess? && IsActive(b, call.agent)
    ensures Run(b, call, now, prune, fault) == Approve(b, call, fault)
  {
    hide ApproveRequest, AppendLog, IsActive, Permitted, SetReservation;
    assert Gate(b, call, now, prune) == (b, true) && Reserve(b, Estimate(call)) == Some((b, None));
    hide Gate, Reserve, RecordSpend;
    assert FinalEffects(b, call, ToApprove(call.request)) == Effects(0, 0, "USD");
    hide FinalEffects;
    var logged := AppendLog(b, call, Success, 0, 0);
    NothingReserved(b);
    NothingReserved(logged);
    if ApproveRequest(logged, call.request, b.next).Some? {
      NothingCharged(ApproveRequest(logged, call.request, b.next).value, call, b.next);
    }
  }

  lemma NothingReserved(b: Books)
    ensures SetReservation(b, None, Released) == b
  {
  }

  lemma NothingCharged(b: Books, call: Call, logId: Id)
    requires call.CallApproveAccess?
    ensures RecordSpend(b, Estimate(call), None, logId) == b
  {
  }

  lemma LoggedIsOrderly(b: Books, call: Call)
    requires Orderly(b)
    ensures Orderly(AppendLog(b, call, Success, 0, 0))
  {
    hide Orderly;
    LoggingIsAside(b, call, Success, 0, 0);
    AsideKeepsOrder(b, AppendLog(b, call, Success, 0, 0));
  }

  /** What an approval needs besides an owner: a pending request, a known applicant, its tier, and no membership yet. */
  predicate Admissible(b: Books, request: Id) {
    && IsPending(b, request)
    && b.requests[request].platform in b.identities && b.requests[request].tier in b.tiers
    && !HasPlatform(b, b.requests[request].platform)
  }

  lemma AdmissibleAfterLogging(b: Books, call: Call, request: Id)
    ensures ApproveRequest(AppendLog(b, call, Success, 0, 0), request, b.next).Some? <==> Admissible(b, request)
  {
  }

  /** Exactly when an approval run completes, and what it then does; one that does not complete changes no table but
    * the audit log. */
  lemma ApprovalCompletesIff(b: Books, agent: Id, request: Id, now: int, prune: bool, fault: Fault)
    requires Orderly(b)
    ensures var (b', outcome) := Run(b, CallApproveAccess(agent, request), now, prune, fault);
            && (outcome.Completed? <==> IsActive(b, agent) && IsOwner(b, agent) && Admissible(b, request)
                                        && fault != LogFails && fault != ApplyFails)
            && (outcome.Completed? ==>
                  && b'.members.Keys == b.members.Keys + {b.next + 1} && b.next + 1 !in b.members
                  && b'.requests == b.requests[request := b.requests[request].(status := Approved(b.next))]
                  && Admits(b', request, b.next + 1, b.next))
            && (!outcome.Completed? ==> b' == b.(logs := b'.logs, next := b'.next) && b.logs <= b'.logs)
  {
    var call := CallApproveAccess(agent, request);
    var logged := AppendLog(b, call, Success, 0, 0);
    LoggedIsOrderly(b, call);
    if IsActive(b, agent) {
      RunApproves(b, call, now, prune, fault);
    }
    AdmissibleAfterLogging(b, call, request);
    hide Orderly, Run, Admits, IsOwner, IsActive, Perform, Commit, HasPlatform, Post;
    if ApproveRequest(logged, request, b.next).Some? {
      ApprovalAdmits(logged, request, b.next);
    } else {
      assert !Admissible(b, request);
    }
  }
}
