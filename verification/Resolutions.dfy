/** Access requests when runs interleave: approval and rejection read the request in one statement and write it in another
  * (internal/covenant/access_request.go). */
module Resolutions {
  import opened Common
  import opened Books
  import opened Engine
  import opened Interleaving
  import opened Witnesses
  import AccessRequests
  import TokenFlows
  import RateLimit

  /** The request a run has read as pending and not yet resolved. */
  function Handling(slot: Slot): Option<Id> {
    if slot.Some? && slot.value.stage.Checked? then
      match slot.value.stage.work
      case ToApprove(request) => Some(request)
      case ToReject(request) => Some(request)
      case _ => None
    else None
  }

  /** The step by which a run reads a request to resolve it. */
  predicate IsCheck(b: Books, slot: Slot, action: Action) {
    slot.Some? && slot.value.stage.Logged? && action.Act? && !action.fails && Resolvable(b, slot.value.stage.work)
  }

  /** The step by which it writes it. */
  predicate IsResolution(b: Books, slot: Slot, action: Action) {
    && Handling(slot).Some? && action.Finish? && !action.fails
    && Resolve(b, slot.value.stage.work, slot.value.stage.logId).Some?
  }

  ghost predicate SameRequests(b: Books, b': Books) {
    b'.requests == b.requests && b'.members == b.members && b'.identities == b.identities && b'.tiers == b.tiers && b'.next >= b.next
  }

  /** Members keep their platforms, and new ones are drawn from the counter. */
  ghost predicate MembersGrow(b: Books, b': Books) {
    && (forall a :: a in b.members ==> a in b'.members && b'.members[a].platform == b.members[a].platform)
    && (forall a :: a in b'.members ==> a < b'.next)
  }

  ghost predicate MembersKnown(b: Books) {
    forall a :: a in b.members ==> a < b.next
  }

  /** A resolution writes its own request, and an approval its member. */
  ghost predicate WritesRequest(b: Books, work: Work, logId: Id, b': Books) {
    && (work.ToApprove? || work.ToReject?)
    && var request := if work.ToApprove? then work.request else if work.ToReject? then work.request else 0;
       && request in b.requests && b'.requests.Keys == b.requests.Keys
       && (forall r :: r in b.requests && r != request ==> b'.requests[r] == b.requests[r])
       && b'.requests[request] == b.requests[request].(status := if work.ToApprove? then Approved(logId) else Rejected(logId))
       && b'.identities == b.identities && b'.tiers == b.tiers && b'.next >= b.next
       && (MembersKnown(b) ==> MembersGrow(b, b'))
       && (work.ToApprove? ==> !HasPlatform(b, b.requests[request].platform) && HasPlatform(b', b.requests[request].platform))
  }

  /** Only a resolution touches requests and members. */
  ghost predicate Resolves(b: Books, slot: Slot, action: Action, b': Books, slot': Slot) {
    && (if IsResolution(b, slot, action) then WritesRequest(b, slot.value.stage.work, slot.value.stage.logId, b') else SameRequests(b, b'))
    && (Handling(slot').Some? ==>
          || (slot' == slot && !IsResolution(b, slot, action))
          || (IsCheck(b, slot, action) && Resolvable(b, slot'.value.stage.work)))
  }

  lemma RefusingSameRequests(b: Books, call: Call, reservation: Option<Id>)
    ensures SameRequests(b, Refuse(b, call, reservation).0) && Refuse(b, call, reservation).1 == None
    ensures SameRequests(b, Abort(b, reservation).0) && Abort(b, reservation).1 == None
    ensures SameRequests(b, LogRefusal(b, call))
  {
  }

  lemma EnteringSameRequests(b: Books, call: Call, now: int, prune: bool)
    ensures SameRequests(b, Entering(b, call, now, prune).0) && Handling(Entering(b, call, now, prune).1) == None
  {
    hide Entering;
    EnteringWrites(b, call, now, prune);
  }

  lemma AuthorizingSameRequests(b: Books, call: Call)
    ensures SameRequests(b, Authorizing(b, call).0) && Handling(Authorizing(b, call).1) == None
  {
    hide Authorizing;
    AuthorizingWrites(b, call);
  }

  lemma PricingSameRequests(b: Books, call: Call, work: Work, reservation: Option<Id>)
    ensures SameRequests(b, Pricing(b, call, work, reservation).0) && Handling(Pricing(b, call, work, reservation).1) == None
  {
    hide FinalEffects, Refuse;
    RefusingSameRequests(b, call, reservation);
  }

  lemma ExecutingSameRequests(b: Books, call: Call)
    requires Execute(b, call).Some?
    ensures SameRequests(b, Execute(b, call).value.0)
  {
    hide ResolveDraft, CostOfLog;
  }

  lemma WorkingSameRequests(b: Books, call: Call, reservation: Option<Id>)
    ensures SameRequests(b, Working(b, call, reservation).0) && Handling(Working(b, call, reservation).1) == None
  {
    hide Execute, Pricing, Refuse, ResolveDraft;
    RefusingSameRequests(b, call, reservation);
    if Execute(b, call).Some? {
      ExecutingSameRequests(b, call);
      PricingSameRequests(Execute(b, call).value.0, call, Execute(b, call).value.1, reservation);
    }
  }

  lemma ClaimingSameRequests(b: Books, call: Call, s: Stage, fails: bool)
    ensures s.Resolved? ==> SameRequests(b, Reading(b, call, s).0) && Handling(Reading(b, call, s).1) == None
    ensures s.Claiming? ==> SameRequests(b, Deleting(b, call, s, fails).0) && Handling(Deleting(b, call, s, fails).1) == None
    ensures s.Worked? ==> SameRequests(b, Logging(b, call, s, fails).0) && Handling(Logging(b, call, s, fails).1) == None
    ensures s.Applied? ==> SameRequests(b, Settling(b, call, s, fails).0) && Handling(Settling(b, call, s, fails).1) == None
  {
    hide Pricing, Refuse, Abort, Estimate;
    if !s.Entered? {
      RefusingSameRequests(b, call, s.reservation);
    }
    if s.Claiming? {
      PricingSameRequests(b.(pending := b.pending - {s.draft}), call, ClaimedBy(call, s.draft, s.proposer), s.reservation);
    }
  }

  lemma ActingResolves(b: Books, call: Call, s: Stage, fails: bool)
    requires s.Logged?
    ensures var slot := Some(Flight(call, s)); var next := Acting(b, call, s, fails);
            Resolves(b, slot, Act(fails), next.0, next.1)
  {
    hide Abort, Balance, Reverse, Resolve, Refuse, LogRefusal, Resolvable, WritesRequest;
    RefusingSameRequests(b, call, s.reservation);
  }

  lemma ResolvingResolves(b: Books, work: Work, logId: Id)
    requires Resolve(b, work, logId).Some?
    ensures WritesRequest(b, work, logId, Resolve(b, work, logId).value)
  {
    hide Post;
    var b' := Resolve(b, work, logId).value;
    if work.ToApprove? {
      assert HasPlatform(AsRead(b, work.request), b.requests[work.request].platform) <==> HasPlatform(b, b.requests[work.request].platform);
      assert b'.members[b.next].platform == b.requests[work.request].platform;
    }
  }

  lemma FinishingResolves(b: Books, call: Call, s: Stage, fails: bool)
    requires s.Summed? || s.Checked? || s.Flipped?
    ensures var slot := Some(Flight(call, s)); var next := Finishing(b, call, s, fails);
            Resolves(b, slot, Finish(fails), next.0, next.1)
  {
    RefusingSameRequests(b, call, s.reservation);
    if s.Checked? && Resolve(b, s.work, s.logId).Some? {
      ResolvingResolves(b, s.work, s.logId);
    }
    hide Abort, Resolve, Refund;
  }

  lemma AdvanceResolves(b: Books, slot: Slot, action: Action)
    ensures Resolves(b, slot, action, Advance(b, slot, action).0, Advance(b, slot, action).1)
  {
    hide Entering, Authorizing, Working, Reading, Deleting, Logging, Acting, Finishing, Settling, Resolve, Resolvable;
    match slot
    case None =>
      if action.Enter? { EnteringSameRequests(b, action.call, action.now, action.prune); }
    case Some(Flight(call, s)) =>
      if s.Entered? && action.Authorize? { AuthorizingSameRequests(b, call); }
      if s.Authorized? && action.Work? { WorkingSameRequests(b, call, s.reservation); }
      if action.Read? { ClaimingSameRequests(b, call, s, false); }
      if action.Claim? || action.Log? || action.Settle? { ClaimingSameRequests(b, call, s, action.fails); }
      if s.Logged? && action.Act? { ActingResolves(b, call, s, action.fails); }
      if (s.Summed? || s.Checked? || s.Flipped?) && action.Finish? { FinishingResolves(b, call, s, action.fails); }
  }

  // ---- At most once ---------------------------------------------------------------------------------

  function Asked(slot: Slot): Option<Id> {
    if slot.Some? && slot.value.stage.Logged? then
      match slot.value.stage.work
      case ToApprove(request) => Some(request)
      case ToReject(request) => Some(request)
      case _ => None
    else None
  }

  predicate Rejecting(slot: Slot) {
    slot.Some? && ((slot.value.stage.Checked? && slot.value.stage.work.ToReject?) || (slot.value.stage.Logged? && slot.value.stage.work.ToReject?))
  }

  predicate IsMember(b: Books, request: Id) {
    request in b.requests && HasPlatform(b, b.requests[request].platform)
  }

  /** Two runs on one request stand in each other's way unless both approve, or one approves an applicant who is a member
    * already: such an approval fails. */
  predicate Conflict(b: Books, slot: Slot, other: Slot, request: Id) {
    (Rejecting(slot) && Rejecting(other)) || (Rejecting(slot) != Rejecting(other) && !IsMember(b, request))
  }

  /** What a run has read still holds, or it is an approval that will fail. */
  ghost predicate MayResolve(b: Books, slot: Slot) {
    Handling(slot).Some? ==>
      var r := Handling(slot).value;
      && r in b.requests && (IsPending(b, r) || (!Rejecting(slot) && IsMember(b, r)))
      && (!Rejecting(slot) ==> b.requests[r].platform in b.identities && b.requests[r].tier in b.tiers)
  }

  ghost predicate Tame(f: Floor) {
    && MembersKnown(f.books) && (forall i :: 0 <= i < |f.slots| ==> MayResolve(f.books, f.slots[i]))
    && forall i, j :: 0 <= i < j < |f.slots| && Handling(f.slots[i]).Some? && Handling(f.slots[i]) == Handling(f.slots[j]) ==>
         !Conflict(f.books, f.slots[i], f.slots[j], Handling(f.slots[i]).value)
  }

  /** A run reads a request that another has read and not yet resolved, and the two are in conflict. */
  ghost predicate OverlappingCheck(f: Floor, m: Move) {
    && m.Turn? && m.slot < |f.slots| && IsCheck(f.books, f.slots[m.slot], m.action) && Asked(f.slots[m.slot]).Some?
    && exists j :: 0 <= j < |f.slots| && Handling(f.slots[j]) == Asked(f.slots[m.slot])
                   && Conflict(f.books, f.slots[m.slot], f.slots[j], Asked(f.slots[m.slot]).value)
  }

  /** Only pending requests change, in their status alone. */
  ghost predicate LeavesPendingOnce(b: Books, b': Books) {
    forall r :: r in b.requests ==> r in b'.requests && AccessRequests.SameCase(b.requests[r], b'.requests[r])
  }

  lemma CheckHolds(b: Books, slot: Slot, action: Action)
    requires IsCheck(b, slot, action)
    ensures var slot' := Advance(b, slot, action).1;
            && Handling(slot') == Asked(slot) && Asked(slot).Some? && IsPending(b, Asked(slot).value) && Handling(slot) == None
            && (Rejecting(slot') <==> Rejecting(slot)) && Advance(b, slot, action).0 == b
            && slot'.value.stage.logId == slot.value.stage.logId
            && (!Rejecting(slot) ==> b.requests[Asked(slot).value].platform in b.identities && b.requests[Asked(slot).value].tier in b.tiers)
  {
    hide Balance;
  }

  lemma AdvancedResolves(b: Books, slot: Slot, action: Action, lost: bool)
    ensures Resolves(b, slot, action, Advanced(b, slot, action, lost).0, Advanced(b, slot, action, lost).1)
  {
    AdvanceResolves(b, slot, action);
    AdvancedIsAdvance(b, slot, action, lost);
    SameButReservations(b, Advance(b, slot, action).0, Advanced(b, slot, action, lost).0);
    hide Advance, Advanced, IsResolution, IsCheck, Resolvable, WritesRequest;
  }

  lemma SameButReservations(b: Books, b': Books, b'': Books)
    requires b'' == b'.(reservations := b''.reservations)
    ensures SameRequests(b, b') ==> SameRequests(b, b'')
    ensures forall work, logId :: WritesRequest(b, work, logId, b') ==> WritesRequest(b, work, logId, b'')
  {
  }

  /** Everyone else may still resolve after a step that only reads, or adds members. */
  lemma OthersMayResolve(b: Books, b': Books, other: Slot)
    requires MayResolve(b, other) && SameRequests(b, b')
    ensures MayResolve(b', other)
    ensures forall slot, r :: Conflict(b', slot, other, r) ==> Conflict(b, slot, other, r)
  {
    hide Handling;
  }

  lemma MembersStay(b: Books, b': Books, request: Id)
    requires MembersGrow(b, b') && request in b.requests && request in b'.requests
    requires b'.requests[request].platform == b.requests[request].platform
    ensures IsMember(b, request) ==> IsMember(b', request)
  {
    if IsMember(b, request) {
      var a :| a in b.members && b.members[a].platform == b.requests[request].platform;
      assert b'.members[a].platform == b'.requests[request].platform;
    }
  }

  /** Nothing new conflicts while members only grow. */
  lemma ConflictsShrink(b: Books, b': Books, slot: Slot, other: Slot, request: Id)
    requires IsMember(b, request) ==> IsMember(b', request)
    ensures Conflict(b', slot, other, request) ==> Conflict(b, slot, other, request)
  {
  }

  /** A resolution finds its request pending, and leaves the others to fail or to their own requests. */
  lemma ResolutionIsFirst(b: Books, slot: Slot, action: Action, b': Books)
    requires MembersKnown(b) && MayResolve(b, slot) && IsResolution(b, slot, action)
    requires WritesRequest(b, slot.value.stage.work, slot.value.stage.logId, b')
    ensures IsPending(b, Handling(slot).value) && LeavesPendingOnce(b, b') && MembersKnown(b')
    ensures !Rejecting(slot) ==> !IsMember(b, Handling(slot).value) && IsMember(b', Handling(slot).value)
  {
    hide HasPlatform;
  }

  lemma OtherAfterResolution(b: Books, slot: Slot, action: Action, b': Books, other: Slot)
    requires MembersKnown(b) && MayResolve(b, slot) && IsResolution(b, slot, action) && MayResolve(b, other)
    requires WritesRequest(b, slot.value.stage.work, slot.value.stage.logId, b')
    requires Handling(other) == Handling(slot) ==> !Conflict(b, slot, other, Handling(slot).value)
    ensures MayResolve(b', other)
  {
    ResolutionIsFirst(b, slot, action, b');
    if Handling(other).Some? {
      MembersStay(b, b', Handling(other).value);
    }
    hide HasPlatform, IsResolution;
  }

  lemma TurnStaysTame(f: Floor, k: nat, action: Action, lost: bool)
    requires Tame(f) && !OverlappingCheck(f, Turn(k, action, lost))
    ensures var f' := Step(f, Turn(k, action, lost)); Tame(f') && LeavesPendingOnce(f.books, f'.books)
  {
    if k < |f.slots| {
      assert MayResolve(f.books, f.slots[k]);
      AdvancedResolves(f.books, f.slots[k], action, lost);
      if IsResolution(f.books, f.slots[k], action) {
        ResolutionStaysTame(f, k, action, lost);
      } else if IsCheck(f.books, f.slots[k], action) {
        CheckStaysTame(f, k, action, lost);
      } else {
        QuietStaysTame(f, k, action, lost);
      }
    }
  }

  lemma ResolutionEmpties(b: Books, slot: Slot, action: Action, lost: bool)
    requires IsResolution(b, slot, action)
    ensures Handling(Advanced(b, slot, action, lost).1) == None
  {
    hide Resolve;
  }

  lemma ResolutionStaysTame(f: Floor, k: nat, action: Action, lost: bool)
    requires Tame(f) && k < |f.slots| && IsResolution(f.books, f.slots[k], action)
    ensures var f' := Step(f, Turn(k, action, lost)); Tame(f') && LeavesPendingOnce(f.books, f'.books)
  {
    var b, slot, f' := f.books, f.slots[k], Step(f, Turn(k, action, lost));
    assert MayResolve(b, slot);
    AdvancedResolves(b, slot, action, lost);
    ResolutionEmpties(b, slot, action, lost);
    hide Advanced, MayResolve, IsResolution, Handling, Conflict, IsMember;
    ResolutionIsFirst(b, slot, action, f'.books);
    forall i | 0 <= i < |f'.slots| ensures MayResolve(f'.books, f'.slots[i]) {
      if i != k {
        SymmetricConflict(b, f.slots[i], slot, Handling(slot).value);
        assert Handling(f.slots[if i < k then i else k]) == Handling(f.slots[if i < k then k else i]) ==>
                 !Conflict(b, f.slots[if i < k then i else k], f.slots[if i < k then k else i], Handling(slot).value);
        OtherAfterResolution(b, slot, action, f'.books, f.slots[i]);
      } else {
        NothingToResolve(f'.books, f'.slots[k]);
      }
    }
    forall i, j | 0 <= i < j < |f'.slots| && Handling(f'.slots[i]).Some? && Handling(f'.slots[i]) == Handling(f'.slots[j])
      ensures !Conflict(f'.books, f'.slots[i], f'.slots[j], Handling(f'.slots[i]).value)
    {
      assert f'.slots[i] == f.slots[i] && f'.slots[j] == f.slots[j];
      assert MayResolve(b, f.slots[i]);
      HandledIsKnown(b, f.slots[i]);
      var r := Handling(f.slots[i]).value;
      ResolutionGrows(b, slot, action, f'.books, r);
      ConflictsShrink(b, f'.books, f.slots[i], f.slots[j], r);
    }
  }

  lemma ResolutionGrows(b: Books, slot: Slot, action: Action, b': Books, r: Id)
    requires MembersKnown(b) && r in b.requests && slot.Some? && slot.value.stage.Checked?
    requires WritesRequest(b, slot.value.stage.work, slot.value.stage.logId, b')
    ensures IsMember(b, r) ==> IsMember(b', r)
  {
    MembersStay(b, b', r);
  }

  lemma HandledIsKnown(b: Books, slot: Slot)
    requires MayResolve(b, slot) && Handling(slot).Some?
    ensures Handling(slot).value in b.requests
  {
  }

  lemma NothingToResolve(b: Books, slot: Slot)
    requires Handling(slot) == None
    ensures MayResolve(b, slot)
  {
  }

  lemma SymmetricConflict(b: Books, slot: Slot, other: Slot, r: Id)
    ensures Conflict(b, slot, other, r) <==> Conflict(b, other, slot, r)
  {
  }

  lemma CheckStaysTame(f: Floor, k: nat, action: Action, lost: bool)
    requires Tame(f) && k < |f.slots| && IsCheck(f.books, f.slots[k], action) && !OverlappingCheck(f, Turn(k, action, lost))
    ensures var f' := Step(f, Turn(k, action, lost)); Tame(f') && LeavesPendingOnce(f.books, f'.books)
  {
    var b, slot, f' := f.books, f.slots[k], Step(f, Turn(k, action, lost));
    CheckHolds(b, slot, action);
    AdvancedIsAdvance(b, slot, action, lost);
    var slot' := Advance(b, slot, action).1;
    assert f'.books == b && f'.slots[k] == slot';
    CheckedMayResolve(b, slot, slot');
    hide Advance, Advanced, Step, IsMember, Handling, Asked, MayResolve, IsCheck;
    forall i | 0 <= i < |f'.slots| ensures MayResolve(f'.books, f'.slots[i]) {
      assert i != k ==> f'.slots[i] == f.slots[i];
    }
    forall i, j | 0 <= i < j < |f'.slots| && Handling(f'.slots[i]).Some? && Handling(f'.slots[i]) == Handling(f'.slots[j])
      ensures !Conflict(f'.books, f'.slots[i], f'.slots[j], Handling(f'.slots[i]).value)
    {
      if i == k {
        assert f'.slots[j] == f.slots[j] && !Conflict(b, slot, f.slots[j], Asked(slot).value);
      } else if j == k {
        assert f'.slots[i] == f.slots[i] && !Conflict(b, slot, f.slots[i], Asked(slot).value);
      } else {
        assert f'.slots[i] == f.slots[i] && f'.slots[j] == f.slots[j];
      }
    }
  }

  lemma CheckedMayResolve(b: Books, slot: Slot, slot': Slot)
    requires Asked(slot).Some? && Handling(slot') == Asked(slot) && IsPending(b, Asked(slot).value) && (Rejecting(slot') <==> Rejecting(slot))
    requires !Rejecting(slot) ==> b.requests[Asked(slot).value].platform in b.identities && b.requests[Asked(slot).value].tier in b.tiers
    ensures MayResolve(b, slot')
  {
    hide IsMember;
  }

  lemma QuietStaysTame(f: Floor, k: nat, action: Action, lost: bool)
    requires Tame(f) && k < |f.slots| && !IsResolution(f.books, f.slots[k], action) && !IsCheck(f.books, f.slots[k], action)
    ensures var f' := Step(f, Turn(k, action, lost)); Tame(f') && LeavesPendingOnce(f.books, f'.books)
  {
    var b, f' := f.books, Step(f, Turn(k, action, lost));
    AdvancedResolves(b, f.slots[k], action, lost);
    hide Advanced, IsResolution, IsCheck, Resolvable, IsMember, Handling, Rejecting;
    forall i | 0 <= i < |f'.slots| && Handling(f'.slots[i]).Some? ensures f'.slots[i] == f.slots[i] {
      assert i != k ==> f'.slots[i] == f.slots[i];
    }
    SameRequestsSameMembers(b, f'.books);
    forall i | 0 <= i < |f'.slots| ensures MayResolve(f'.books, f'.slots[i]) {
      assert MayResolve(b, f.slots[i]);
    }
  }

  lemma SameRequestsSameMembers(b: Books, b': Books)
    requires SameRequests(b, b')
    ensures forall r :: IsMember(b', r) <==> IsMember(b, r)
  {
  }

  lemma OthersStayTame(f: Floor, m: Move)
    requires Tame(f) && (!m.Turn? || m.slot >= |f.slots|)
    ensures Tame(Step(f, m)) && LeavesPendingOnce(f.books, Step(f, m).books)
  {
    var f' := Step(f, m);
    hide Step, Handling, Rejecting, IsMember;
    BesideTheRuns(f, m);
    SameRequestsSameMembers(f.books, f'.books);
    forall i | 0 <= i < |f'.slots| ensures MayResolve(f'.books, f'.slots[i]) {
      assert MayResolve(f.books, f.slots[i]);
    }
  }

  ghost predicate NeverOverlapsCheck(f: Floor, moves: seq<Move>) {
    forall k :: 0 <= k < |moves| ==> !OverlappingCheck(Replay(f, moves[..k]), moves[k])
  }

  lemma LeavesOnceOn(b: Books, b': Books, b'': Books)
    requires LeavesPendingOnce(b, b') && LeavesPendingOnce(b', b'')
    ensures LeavesPendingOnce(b, b'')
  {
  }

  lemma StepStaysTame(f: Floor, m: Move)
    requires Tame(f) && !OverlappingCheck(f, m)
    ensures Tame(Step(f, m)) && LeavesPendingOnce(f.books, Step(f, m).books)
  {
    hide Tame, OverlappingCheck, Step, LeavesPendingOnce;
    if m.Turn? {
      TurnStaysTame(f, m.slot, m.action, m.lost);
    } else {
      OthersStayTame(f, m);
    }
  }

  /** From position k to position n every request leaves pending at most once. */
  lemma {:induction false} TameUntil(f: Floor, moves: seq<Move>, k: nat, n: nat, last: nat)
    requires Tame(f) && k <= n <= last <= |moves| && forall i :: 0 <= i < last ==> !OverlappingCheck(Replay(f, moves[..i]), moves[i])
    ensures Tame(Replay(f, moves[..n])) && LeavesPendingOnce(Replay(f, moves[..k]).books, Replay(f, moves[..n]).books)
  {
    hide Tame, OverlappingCheck, Step, LeavesPendingOnce;
    if n == 0 {
      assert Replay(f, moves[..0]) == f;
      LeavesOnceItself(f.books);
    } else {
      TameUntil(f, moves, if k < n then k else k - 1, n - 1, last);
      ReplayNext(f, moves, n - 1);
      StepStaysTame(Replay(f, moves[..n - 1]), moves[n - 1]);
      LeavesOnceItself(Replay(f, moves[..n]).books);
      if k < n {
        LeavesOnceOn(Replay(f, moves[..k]).books, Replay(f, moves[..n - 1]).books, Replay(f, moves[..n]).books);
      }
    }
  }

  lemma LeavesOnceItself(b: Books)
    ensures LeavesPendingOnce(b, b)
  {
  }

  /** Whatever comes next without an overlap in conflict, no request leaves pending twice. */
  ghost predicate ResolveSafe(f: Floor) {
    forall more, k :: NeverOverlapsCheck(f, more) && 0 <= k <= |more| ==> LeavesPendingOnce(Replay(f, more[..k]).books, Replay(f, more).books)
  }

  lemma TameIsSafe(f: Floor)
    requires Tame(f)
    ensures ResolveSafe(f)
  {
    forall more, k | NeverOverlapsCheck(f, more) && 0 <= k <= |more|
      ensures LeavesPendingOnce(Replay(f, more[..k]).books, Replay(f, more).books)
    {
      hide Tame, OverlappingCheck, LeavesPendingOnce, Replay;
      TameUntil(f, more, k, |more|, |more|);
      assert more[..|more|] == more;
    }
  }

  // ---- A conflict goes on to a second resolution ----------------------------------------------------------

  lemma FinishResolves(b: Books, slot: Slot, lost: bool)
    requires slot.Some? && slot.value.stage.Checked? && Resolve(b, slot.value.stage.work, slot.value.stage.logId).Some?
    ensures Advanced(b, slot, Finish(false), lost).0 == Resolve(b, slot.value.stage.work, slot.value.stage.logId).value
  {
    hide Resolve;
  }

  /** A rejection always writes; an approval does for a known applicant who is no member. */
  predicate CanResolve(b: Books, slot: Slot) {
    && Handling(slot).Some? && Handling(slot).value in b.requests
    && var r := Handling(slot).value;
       !Rejecting(slot) ==> !IsMember(b, r) && b.requests[r].platform in b.identities && b.requests[r].tier in b.tiers
  }

  lemma ResolveSucceeds(b: Books, slot: Slot)
    requires CanResolve(b, slot)
    ensures Resolve(b, slot.value.stage.work, slot.value.stage.logId).Some?
  {
    var b' := AsRead(b, Handling(slot).value);
    assert HasPlatform(b', b.requests[Handling(slot).value].platform) <==> HasPlatform(b, b.requests[Handling(slot).value].platform);
    hide HasPlatform, Post;
  }

  /** Finishes two runs. */
  function BothFinish(i: nat, j: nat): seq<Move> {
    [Turn(i, Finish(false), false), Turn(j, Finish(false), false)]
  }

  lemma FinishesCheckNothing(f: Floor, i: nat, j: nat)
    ensures NeverOverlapsCheck(f, BothFinish(i, j))
  {
    hide Replay, Conflict;
    var more := BothFinish(i, j);
    forall k | 0 <= k < |more| ensures !OverlappingCheck(Replay(f, more[..k]), more[k]) {
      assert more[k].action.Finish?;
    }
  }

  /** A finishing run leaves its request approved or rejected under its log id. */
  lemma FinishWrites(f: Floor, k: nat)
    requires k < |f.slots| && CanResolve(f.books, f.slots[k])
    ensures var f' := Step(f, Turn(k, Finish(false), false)); var r := Handling(f.slots[k]).value;
            && r in f'.books.requests && f'.books.requests.Keys == f.books.requests.Keys && |f'.slots| == |f.slots|
            && (forall i :: 0 <= i < |f.slots| && i != k ==> f'.slots[i] == f.slots[i])
            && f'.books.requests[r].status == if Rejecting(f.slots[k]) then Rejected(f.slots[k].value.stage.logId)
                                              else Approved(f.slots[k].value.stage.logId)
  {
    var slot := f.slots[k];
    ResolveSucceeds(f.books, slot);
    FinishResolves(f.books, slot, false);
    ResolvingResolves(f.books, slot.value.stage.work, slot.value.stage.logId);
    hide Advanced, Resolve, CanResolve, HasPlatform;
  }

  /** Two runs in conflict over a pending request can resolve it one after the other. */
  lemma ConflictIsUnsafe(f: Floor, i: nat, j: nat)
    requires i < |f.slots| && j < |f.slots| && i != j && CanResolve(f.books, f.slots[i]) && CanResolve(f.books, f.slots[j])
    requires Handling(f.slots[i]) == Handling(f.slots[j]) && Rejecting(f.slots[j])
    requires f.slots[i].value.stage.logId != f.slots[j].value.stage.logId
    ensures !ResolveSafe(f)
  {
    var r := Handling(f.slots[i]).value;
    var more := BothFinish(i, j);
    FinishWrites(f, i);
    var f1 := Step(f, more[0]);
    assert CanResolve(f1.books, f1.slots[j]);
    FinishWrites(f1, j);
    var f2 := Step(f1, more[1]);
    FinishesCheckNothing(f, i, j);
    hide Step, Handling, Rejecting, CanResolve, NeverOverlapsCheck;
    assert more[..1] == [more[0]] && more == [more[0]] + [more[1]];
    ReplayOne(f, more[0]);
    ReplayJoins(f, [more[0]], [more[1]]);
    ReplayOne(f1, more[1]);
    assert f1.books.requests[r].status != Pending && f2.books.requests[r].status != f1.books.requests[r].status;
    assert !LeavesPendingOnce(Replay(f, more[..1]).books, Replay(f, more).books);
  }

  lemma CheckedLogsDiffer(f: Floor, i: nat, j: nat)
    requires TokenFlows.Sound(f) && i < |f.slots| && j < |f.slots| && i != j && Handling(f.slots[i]).Some? && Handling(f.slots[j]).Some?
    ensures f.slots[i].value.stage.logId != f.slots[j].value.stage.logId
  {
    hide TokenFlows.Backed, TokenFlows.Owes;
    assert TokenFlows.Unposted(f.slots[if i < j then i else j]) != TokenFlows.Unposted(f.slots[if i < j then j else i]);
  }

  lemma OverlapIsUnsafe(f: Floor, m: Move)
    requires Tame(f) && OverlappingCheck(f, m) && TokenFlows.Sound(Step(f, m))
    ensures !ResolveSafe(Step(f, m))
  {
    var b, k, slot := f.books, m.slot, f.slots[m.slot];
    CheckHolds(b, slot, m.action);
    AdvancedIsAdvance(b, slot, m.action, m.lost);
    var j :| 0 <= j < |f.slots| && Handling(f.slots[j]) == Asked(slot) && Conflict(b, slot, f.slots[j], Asked(slot).value);
    assert MayResolve(b, f.slots[j]);
    var f' := Step(f, m);
    assert f'.books == b && j != k && f'.slots[j] == f.slots[j] && f'.slots[k] == Advance(b, slot, m.action).1;
    hide Step, Advance, Advanced, IsMember, ResolveSafe, TokenFlows.Sound;
    CheckedLogsDiffer(f', j, k);
    if Rejecting(slot) {
      ConflictIsUnsafe(f', j, k);
    } else {
      ConflictIsUnsafe(f', k, j);
    }
  }

  lemma FirstOverlap(f: Floor, moves: seq<Move>) returns (k: nat)
    requires !NeverOverlapsCheck(f, moves)
    ensures k < |moves| && OverlappingCheck(Replay(f, moves[..k]), moves[k])
    ensures forall i :: 0 <= i < k ==> !OverlappingCheck(Replay(f, moves[..i]), moves[i])
  {
    hide OverlappingCheck, Replay;
    k := 0;
    while !OverlappingCheck(Replay(f, moves[..k]), moves[k])
      invariant k < |moves|
      invariant forall i :: 0 <= i < k ==> !OverlappingCheck(Replay(f, moves[..i]), moves[i])
      decreases |moves| - k
    {
      k := k + 1;
    }
  }

  /** Main result, requests: an interleaving leaves no request that could yet leave pending twice, however the runs in flight go
    * on, exactly when no run in it read a request that another had read and not yet resolved, with the two in conflict. */
  lemma ResolvesOnceIffNoOverlap(f: Floor, moves: seq<Move>)
    requires Tame(f) && TokenFlows.Sound(f)
    ensures (forall k :: 0 <= k <= |moves| ==> ResolveSafe(Replay(f, moves[..k]))) <==> NeverOverlapsCheck(f, moves)
    ensures NeverOverlapsCheck(f, moves) ==> LeavesPendingOnce(f.books, Replay(f, moves).books)
  {
    hide Tame, OverlappingCheck, Step, ResolveSafe, TokenFlows.Sound, LeavesPendingOnce;
    if NeverOverlapsCheck(f, moves) {
      forall k | 0 <= k <= |moves| ensures ResolveSafe(Replay(f, moves[..k])) {
        TameUntil(f, moves, 0, k, |moves|);
        TameIsSafe(Replay(f, moves[..k]));
      }
      TameUntil(f, moves, 0, |moves|, |moves|);
      assert moves[..|moves|] == moves && Replay(f, moves[..0]) == f;
    } else {
      var k := FirstOverlap(f, moves);
      TameUntil(f, moves, 0, k, k);
      ReplayNext(f, moves, k);
      TokenFlows.TokensAreDueOrStray(f, moves[..k + 1]);
      OverlapIsUnsafe(Replay(f, moves[..k]), moves[k]);
      assert !ResolveSafe(Replay(f, moves[..k + 1]));
    }
  }

  // ---- Approved and rejected ----------------------------------------------------------------------------

  function Checking(call: Call): seq<Action> {
    [Enter(call, 0, false)] + ([Authorize] + ([Work] + ([Log(false)] + [Act(false)])))
  }

  /** The call and work of an approval, or of a rejection. */
  predicate Asks(call: Call, owner: Id, work: Work, request: Id) {
    || (call == CallApproveAccess(owner, request) && work == ToApprove(request))
    || (call == CallRejectAccess(owner, request) && work == ToReject(request))
  }

  lemma CheckPlays(b: Books, call: Call, owner: Id, work: Work, request: Id)
    requires Asks(call, owner, work, request) && IsActive(b, owner) && IsOwner(b, owner) && Approvable(b, request)
    ensures Play(b, None, Checking(call))
         == (AppendLog(b, call, Success, 0, 0), Some(Flight(call, Checked(None, work, b.next))))
  {
    var effects := Effects(0, 0, "USD");
    var logged := AppendLog(b, call, Success, 0, 0);
    var entered, authorized := Some(Flight(call, Entered)), Some(Flight(call, Authorized(None)));
    var worked, acting := Some(Flight(call, Worked(None, work, effects))), Some(Flight(call, Logged(None, work, effects, b.next)));
    PlayJoins(b, None, [Enter(call, 0, false)], [Authorize] + ([Work] + ([Log(false)] + [Act(false)])));
    PlayOne(b, None, Enter(call, 0, false));
    PlayJoins(b, entered, [Authorize], [Work] + ([Log(false)] + [Act(false)]));
    PlayOne(b, entered, Authorize);
    PlayJoins(b, authorized, [Work], [Log(false)] + [Act(false)]);
    PlayOne(b, authorized, Work);
    PlayJoins(b, worked, [Log(false)], [Act(false)]);
    PlayOne(b, worked, Log(false));
    PlayOne(logged, acting, Act(false));
    assert logged.requests == b.requests && logged.identities == b.identities && logged.tiers == b.tiers;
    hide Play, AppendLog;
  }

  lemma ResolutionPlays(b: Books, call: Call, owner: Id, work: Work, request: Id, logId: Id)
    requires Asks(call, owner, work, request) && Resolve(b, work, logId).Some?
    ensures Play(b, Some(Flight(call, Checked(None, work, logId))), PaysActions()) == (Resolve(b, work, logId).value, None)
  {
    var slot := Some(Flight(call, Checked(None, work, logId)));
    var resolved := Resolve(b, work, logId).value;
    PlayJoins(b, slot, [Finish(false)], [Settle(false)]);
    PlayOne(b, slot, Finish(false));
    PlayOne(resolved, Some(Flight(call, Applied(None, logId))), Settle(false));
    hide Play, Resolve;
  }

  /** Approving and then rejecting over the same reading. */
  lemma ResolvesTwice(b: Books, b2: Books, request: Id, l0: Id, l1: Id)
    requires Approvable(b, request) && !HasPlatform(b, b.requests[request].platform)
    requires OnlyLogs(b, b2)
    ensures Resolve(b2, ToApprove(request), l0).Some?
    ensures var approved := Resolve(b2, ToApprove(request), l0).value;
            && Resolve(approved, ToReject(request), l1).Some?
            && var rejected := Resolve(approved, ToReject(request), l1).value;
               && request in rejected.requests && rejected.requests[request].status == Rejected(l1)
               && HasPlatform(rejected, b.requests[request].platform) && rejected.ledger == approved.ledger
  {
    var platform := b.requests[request].platform;
    assert HasPlatform(b2, platform) <==> HasPlatform(b, platform);
    PendingIsAsRead(b2, request);
    var approved := Resolve(b2, ToApprove(request), l0).value;
    assert approved.members[b2.next].platform == platform;
    var rejected := Resolve(approved, ToReject(request), l1).value;
    assert rejected.members == approved.members && b2.next in rejected.members;
  }

  /** These moves end at rest with a rejected request whose applicant is a member. */
  ghost predicate AdmitsAndRejects(f: Floor, moves: seq<Move>, request: Id)
    requires request in f.books.requests
  {
    var b := Replay(f, moves).books;
    && AtRest(Replay(f, moves)) && request in b.requests && b.requests[request].status.Rejected?
    && HasPlatform(b, f.books.requests[request].platform)
  }

  ghost predicate OnlyLogs(b: Books, b': Books) {
    b' == b.(logs := b'.logs, next := b'.next)
  }

  lemma OnlyLogsOn(b: Books, b': Books, b'': Books)
    requires OnlyLogs(b, b') && OnlyLogs(b', b'')
    ensures OnlyLogs(b, b'')
  {
  }

  lemma TwoSlots(slots: seq<Slot>, s0: Slot, s1: Slot)
    requires |slots| == 2
    ensures slots[0 := s0][1 := s1] == [s0, s1]
  {
  }

  lemma StillAsked(b: Books, call: Call, owner: Id, request: Id)
    requires IsActive(b, owner) && IsOwner(b, owner) && Approvable(b, request)
    ensures var b' := AppendLog(b, call, Success, 0, 0);
            && IsActive(b', owner) && IsOwner(b', owner) && Approvable(b', request)
            && OnlyLogs(b, b') && b'.next == b.next + 1
  {
  }

  lemma BothLogged(b: Books, approve: Call, reject: Call, owner: Id, request: Id)
    requires IsActive(b, owner) && IsOwner(b, owner) && Approvable(b, request)
    ensures OnlyLogs(b, AppendLog(AppendLog(b, approve, Success, 0, 0), reject, Success, 0, 0))
  {
    hide AppendLog, OnlyLogs, Approvable, IsActive, IsOwner;
    StillAsked(b, approve, owner, request);
    var b1 := AppendLog(b, approve, Success, 0, 0);
    StillAsked(b1, reject, owner, request);
    OnlyLogsOn(b, b1, AppendLog(b1, reject, Success, 0, 0));
  }

  lemma EmptyAtRest(f: Floor)
    requires AtRest(f)
    ensures forall i :: 0 <= i < |f.slots| ==> f.slots[i] == None
  {
  }

  lemma BothCheck(f: Floor, owner: Id, request: Id) returns (moves: seq<Move>)
    requires |f.slots| == 2 && AtRest(f) && IsActive(f.books, owner) && IsOwner(f.books, owner) && Approvable(f.books, request)
    ensures var f' := Replay(f, moves); var b, b' := f.books, f'.books;
            && OnlyLogs(b, b')
            && f'.slots == [Some(Flight(CallApproveAccess(owner, request), Checked(None, ToApprove(request), b.next))),
                            Some(Flight(CallRejectAccess(owner, request), Checked(None, ToReject(request), b.next + 1)))]
  {
    var approve, reject := CallApproveAccess(owner, request), CallRejectAccess(owner, request);
    var b1 := AppendLog(f.books, approve, Success, 0, 0);
    CheckPlays(f.books, approve, owner, ToApprove(request), request);
    hide Play, Replay, Checking, AppendLog, Approvable, IsActive, IsOwner, AtRest, OnlyLogs;
    BothLogged(f.books, approve, reject, owner, request);
    TwoSlots(f.slots, Some(Flight(approve, Checked(None, ToApprove(request), f.books.next))),
             Some(Flight(reject, Checked(None, ToReject(request), f.books.next + 1))));
    StillAsked(f.books, approve, owner, request);
    StillAsked(b1, reject, owner, request);
    CheckPlays(b1, reject, owner, ToReject(request), request);
    EmptyAtRest(f);
    OneSlotPlays(f, 0, Checking(approve));
    var f1 := Replay(f, TurnsOf(0, Checking(approve)));
    OneSlotPlays(f1, 1, Checking(reject));
    ReplayJoins(f, TurnsOf(0, Checking(approve)), TurnsOf(1, Checking(reject)));
    moves := TurnsOf(0, Checking(approve)) + TurnsOf(1, Checking(reject));
  }

  lemma BothResolve(f: Floor, b: Books, owner: Id, request: Id, l0: Id, l1: Id) returns (moves: seq<Move>)
    requires Approvable(b, request) && !HasPlatform(b, b.requests[request].platform)
    requires OnlyLogs(b, f.books)
    requires f.slots == [Some(Flight(CallApproveAccess(owner, request), Checked(None, ToApprove(request), l0))),
                         Some(Flight(CallRejectAccess(owner, request), Checked(None, ToReject(request), l1)))]
    ensures var b' := Replay(f, moves).books;
            && AtRest(Replay(f, moves)) && request in b'.requests && b'.requests[request].status == Rejected(l1)
            && HasPlatform(b', b.requests[request].platform)
  {
    var approve, reject := CallApproveAccess(owner, request), CallRejectAccess(owner, request);
    hide Play, Replay, PaysActions, Resolve, HasPlatform, Approvable;
    ResolvesTwice(b, f.books, request, l0, l1);
    var approved := Resolve(f.books, ToApprove(request), l0).value;
    ResolutionPlays(f.books, approve, owner, ToApprove(request), request, l0);
    ResolutionPlays(approved, reject, owner, ToReject(request), request, l1);
    OneSlotPlays(f, 0, PaysActions());
    var f1 := Replay(f, TurnsOf(0, PaysActions()));
    OneSlotPlays(f1, 1, PaysActions());
    ReplayJoins(f, TurnsOf(0, PaysActions()), TurnsOf(1, PaysActions()));
    moves := TurnsOf(0, PaysActions()) + TurnsOf(1, PaysActions());
  }

  /** An approval and a rejection that both read a pending request before either writes it leave a member, and its fee, for
    * a rejected request. */
  lemma OverlappingResolutionsDisagree(f: Floor, owner: Id, request: Id)
    requires |f.slots| == 2 && AtRest(f) && IsActive(f.books, owner) && IsOwner(f.books, owner)
    requires Approvable(f.books, request) && !HasPlatform(f.books, f.books.requests[request].platform)
    ensures exists moves :: AdmitsAndRejects(f, moves, request)
  {
    var first := BothCheck(f, owner, request);
    var second := BothResolve(Replay(f, first), f.books, owner, request, f.books.next, f.books.next + 1);
    ReplayJoins(f, first, second);
    hide Replay, HasPlatform, AtRest;
    assert AdmitsAndRejects(f, first + second, request);
  }
}
