/** What overlapping requests of the git bridge, leftover drafts and lost marks lead to, each reached from a site at rest. */
module BridgeOverlaps {
  import opened Common
  import opened Books
  import opened Engine
  import opened GitTwin
  import opened BridgeFloor
  import Drafts
  import History
  import RateLimit

  // ---- Runs that complete ---------------------------------------------------------------------------------------

  /** An active covenant with a USD budget that is unlimited. */
  predicate Open(b: Books) {
    b.state == ACTIVE && BudgetCurrency(b) == "USD" && (b.counter.Some? ==> b.counter.value.limit <= 0)
  }

  /** What a run may leave changed: drafts, ledger, log, budget and buckets. */
  predicate StaysOpen(b: Books, b': Books) {
    Open(b') && b'.members == b.members
  }

  predicate PassesGate(b: Books, agent: Id, now: int) {
    RateLimit.CheckAndIncrement(b.buckets, b.hourlyLimit, agent, now, false).1
  }

  lemma GateOpens(b: Books, agent: Id) returns (now: int)
    ensures PassesGate(b, agent, now)
  {
    now := RateLimit.AcceptsLater(b.buckets, b.hourlyLimit, agent);
  }

  lemma ProposalPerforms(b: Books, call: Call, reservation: Option<Id>)
    requires Open(b) && call.CallPropose?
    ensures var (b', outcome) := Perform(b, call, reservation, NoFault); outcome.Completed? && StaysOpen(b, b')
  {
    hide Estimate;
  }

  lemma ReservesOpen(b: Books, call: Call)
    requires Open(b)
    ensures Reserve(b, Estimate(call)).Some? && StaysOpen(b, Reserve(b, Estimate(call)).value.0)
    ensures Reserve(b, Estimate(call)).value.0.pending == b.pending
  {
    hide Estimate;
  }

  lemma ProposalCompletes(b: Books, m: Merge, agent: Id, now: int)
    requires Open(b) && IsActive(b, agent) && m.units > 0 && PassesGate(b, agent, now)
    ensures var (b', outcome) := Run(b, ProposalOf(m, agent), now, false, NoFault);
            && outcome.Completed? && StaysOpen(b, b') && b'.pending == b.pending[ProposedDraft(outcome.logId) := agent]
  {
    var call := ProposalOf(m, agent);
    ProposalRunProposes(b, call, now, false, NoFault);
    hide Perform, Reserve, Estimate, RateLimit.CheckAndIncrement, ProposedDraft;
    var gated := Gate(b, call, now, false).0;
    ReservesOpen(gated, call);
    ProposalPerforms(Reserve(gated, Estimate(call)).value.0, call, Reserve(gated, Estimate(call)).value.1);
  }

  lemma ApprovalCommits(b: Books, call: Call, work: Work, effects: Effects, reservation: Option<Id>, fault: Fault)
    requires Open(b) && work.Claimed? && (fault == NoFault || fault == SettleFails)
    ensures var (b', outcome) := Commit(b, call, work, effects, reservation, fault);
            && (if fault == SettleFails && Estimate(call) > 0 then outcome.Unsettled? else outcome.Completed?) && StaysOpen(b, b')
            && b'.pending == b.pending
  {
    hide Estimate, Balance;
  }

  lemma ApprovalPerforms(b: Books, call: Call, reservation: Option<Id>, fault: Fault)
    requires Open(b) && call.CallApprove? && call.target.ByDraft? && call.units > 0 && call.target.draft in b.pending
    requires fault == NoFault || fault == SettleFails
    ensures var (b', outcome) := Perform(b, call, reservation, fault);
            && (if fault == SettleFails && Estimate(call) > 0 then outcome.Unsettled? else outcome.Completed?) && StaysOpen(b, b')
            && b'.pending == b.pending - {call.target.draft}
  {
    var (executed, work) := Execute(b, call).value;
    Drafts.ApprovalEffects(executed, call, work);
    hide Estimate, Commit, FinalEffects;
    ApprovalCommits(executed, call, work, FinalEffects(executed, call, work), reservation, fault);
  }

  predicate MayGrant(b: Books, owner: Id) {
    Open(b) && IsActive(b, owner) && IsOwner(b, owner)
  }

  lemma ApprovalCompletes(b: Books, call: Call, now: int, fault: Fault)
    requires call.CallApprove? && call.target.ByDraft? && call.units > 0 && call.target.draft in b.pending
    requires MayGrant(b, call.agent) && PassesGate(b, call.agent, now) && (fault == NoFault || fault == SettleFails)
    ensures var (b', outcome) := Run(b, call, now, false, fault);
            && (if fault == SettleFails && Estimate(call) > 0 then outcome.Unsettled? else outcome.Completed?) && StaysOpen(b, b')
            && b'.pending == b.pending - {call.target.draft}
  {
    hide Perform, Reserve, Estimate, RateLimit.CheckAndIncrement;
    var gated := Gate(b, call, now, false).0;
    ReservesOpen(gated, call);
    ApprovalPerforms(Reserve(gated, Estimate(call)).value.0, call, Reserve(gated, Estimate(call)).value.1, fault);
  }

  // ---- Requests that go on to their end ---------------------------------------------------------------------------

  /** Both runs at this time, every statement succeeding. */
  function Clear(owner: Id, now: int): Conditions {
    Conditions(Some(owner), Circumstance(now, false, NoFault), Circumstance(now, false, NoFault), false, false)
  }

  /** The request's author is still active, its draft still pending, and its event was recorded. */
  predicate MayGoOn(t: Twin, v: Visit, owner: Id) {
    && MayGrant(t.books, owner) && v.m.units > 0
    && (v.Mapped? ==> IsActive(t.books, v.agent))
    && (v.Proposed? || v.Noted? ==> ProposedDraft(v.proposeLog) in t.books.pending)
    && (v.Noted? || v.Granted? ==> v.m.draftRef in t.events)
  }

  /** A step that loses nothing. */
  predicate IsClear(t: Twin, v: Visit, c: Conditions) {
    TurnNote(t, v, c).NoNote? || TurnNote(t, v, c).Pays? || TurnNote(t, v, c).Marks?
  }

  /** From one twin to the next, the request has taken this step. */
  ghost predicate Went(t: Twin, v: Visit, c: Conditions, t': Twin, v': Visit) {
    && Advance(t, v, c) == (t', Going(v')) && v'.m == v.m && IsClear(t, v, c)
    && StaysOpen(t.books, t'.books) && t.events.Keys <= t'.events.Keys
    && (v.Proposed? ==> !IsApproved(t'.events, v.m.draftRef))
  }

  lemma ProposalGoesOn(t: Twin, v: Visit, owner: Id) returns (c: Conditions, t': Twin, v': Visit)
    requires v.Mapped? && MayGoOn(t, v, owner)
    ensures Went(t, v, c, t', v') && v'.Proposed? && MayGoOn(t', v', owner)
  {
    hide Run, RateLimit.CheckAndIncrement, ProposedDraft;
    var now := GateOpens(t.books, v.agent);
    c := Clear(owner, now);
    ProposalCompletes(t.books, v.m, v.agent, now);
    t' := Advance(t, v, c).0;
    v' := Advance(t, v, c).1.visit;
  }

  lemma RecordGoesOn(t: Twin, v: Visit, owner: Id) returns (c: Conditions, t': Twin, v': Visit)
    requires v.Proposed? && MayGoOn(t, v, owner)
    ensures Went(t, v, c, t', v') && v'.Noted? && MayGoOn(t', v', owner)
  {
    hide Run, ProposedDraft;
    c := Clear(owner, 0);
    t' := Advance(t, v, c).0;
    v' := Advance(t, v, c).1.visit;
  }

  lemma ApprovalGoesOn(t: Twin, v: Visit, owner: Id) returns (c: Conditions, t': Twin, v': Visit)
    requires v.Noted? && MayGoOn(t, v, owner)
    ensures Went(t, v, c, t', v') && v'.Granted? && MayGoOn(t', v', owner) && t'.events == t.events
  {
    hide Run, RateLimit.CheckAndIncrement, ProposedDraft;
    var now := GateOpens(t.books, owner);
    c := Clear(owner, now);
    ApprovalCompletes(t.books, ApprovalOf(v.m, owner, ProposedDraft(v.proposeLog)), now, NoFault);
    t' := Advance(t, v, c).0;
    v' := Advance(t, v, c).1.visit;
  }

  lemma ClosingMarks(t: Twin, v: Visit, owner: Id)
    requires v.Granted? && MayGoOn(t, v, owner)
    ensures var c := Clear(owner, 0); var (t', p') := Advance(t, v, c);
            p'.Done? && IsClear(t, v, c) && t'.books == t.books && IsApproved(t'.events, v.m.draftRef)
  {
    hide Run;
  }

  /** Only steps of requests, and none that loses anything. */
  ghost predicate Quiet(s: Site, moves: seq<Move>) {
    forall k :: 0 <= k < |moves| ==> QuietTurn(Replay(s, moves[..k]), moves[k])
  }

  predicate QuietTurn(s: Site, o: Move) {
    o.Turn? && (Turns(s, o) ==> IsClear(s.twin, s.visits[o.slot].value, o.c))
  }

  lemma {:induction false} ReplayJoins(s: Site, first: seq<Move>, rest: seq<Move>)
    ensures Replay(s, first + rest) == Replay(Replay(s, first), rest)
  {
    if rest == [] {
      assert first + rest == first;
    } else {
      hide Step;
      assert (first + rest)[..|first + rest| - 1] == first + rest[..|rest| - 1];
      ReplayJoins(s, first, rest[..|rest| - 1]);
    }
  }

  lemma ReplayOne(s: Site, o: Move)
    ensures Replay(s, [o]) == Step(s, o)
  {
    assert [o][..0] == [] && Replay(s, []) == s;
    hide Step;
  }

  lemma QuietJoins(s: Site, first: seq<Move>, rest: seq<Move>)
    requires Quiet(s, first) && Quiet(Replay(s, first), rest)
    ensures Quiet(s, first + rest) && Replay(s, first + rest) == Replay(Replay(s, first), rest)
  {
    hide QuietTurn, Replay;
    ReplayJoins(s, first, rest);
    forall k | 0 <= k < |first + rest| ensures QuietTurn(Replay(s, (first + rest)[..k]), (first + rest)[k]) {
      if k < |first| {
        assert (first + rest)[..k] == first[..k];
      } else {
        assert (first + rest)[..k] == first + rest[..k - |first|];
        ReplayJoins(s, first, rest[..k - |first|]);
      }
    }
  }

  lemma QuietOne(s: Site, o: Move)
    requires QuietTurn(s, o)
    ensures Quiet(s, [o]) && Replay(s, [o]) == Step(s, o)
  {
    hide QuietTurn, Step;
    ReplayOne(s, o);
    assert [o][..0] == [] && Replay(s, []) == s;
  }

  lemma TurnGoesOn(s: Site, k: nat, owner: Id) returns (o: Move)
    requires k < |s.visits| && s.visits[k].Some? && !s.visits[k].value.Granted? && MayGoOn(s.twin, s.visits[k].value, owner)
    ensures var s', v := Step(s, o), s.visits[k].value;
            && QuietTurn(s, o) && |s'.visits| == |s.visits| && s'.visits[k].Some? && s'.visits == s.visits[k := s'.visits[k]]
            && var v' := s'.visits[k].value;
               && v'.m == v.m && MayGoOn(s'.twin, v', owner) && StaysOpen(s.twin.books, s'.twin.books)
               && (v.Mapped? ==> v'.Proposed?) && (v.Proposed? ==> v'.Noted? && !IsApproved(s'.twin.events, v.m.draftRef))
               && (v.Noted? ==> v'.Granted?)
  {
    var v := s.visits[k].value;
    var c, t', v';
    if v.Mapped? {
      c, t', v' := ProposalGoesOn(s.twin, v, owner);
    } else if v.Proposed? {
      c, t', v' := RecordGoesOn(s.twin, v, owner);
    } else {
      c, t', v' := ApprovalGoesOn(s.twin, v, owner);
    }
    hide Advance, MayGoOn, StaysOpen, IsApproved, IsClear;
    o := Turn(k, c);
  }

  /** A request in flight can go on to its approval. */
  lemma VisitIsGranted(s: Site, k: nat, owner: Id) returns (moves: seq<Move>)
    requires k < |s.visits| && s.visits[k].Some? && MayGoOn(s.twin, s.visits[k].value, owner)
    ensures var s', v := Replay(s, moves), s.visits[k].value;
            && Quiet(s, moves) && |s'.visits| == |s.visits| && s'.visits[k].Some? && s'.visits == s.visits[k := s'.visits[k]]
            && s'.visits[k].value.m == v.m && s'.visits[k].value.Granted? && MayGoOn(s'.twin, s'.visits[k].value, owner)
            && s'.twin.books.members == s.twin.books.members
    decreases StepsLeft(Going(s.visits[k].value))
  {
    hide MayGoOn, QuietTurn, Step, IsApproved;
    if s.visits[k].value.Granted? {
      moves := [];
      assert s.visits[k := s.visits[k]] == s.visits;
    } else {
      var o := TurnGoesOn(s, k, owner);
      var rest := VisitIsGranted(Step(s, o), k, owner);
      QuietOne(s, o);
      QuietJoins(s, [o], rest);
      moves := [o] + rest;
    }
  }

  // ---- Histories that go on -----------------------------------------------------------------------------------

  /** No mark was lost, no leftover draft awarded by another run, and no other covenant approved the reference. */
  predicate Undisturbed(s: Site, moves: seq<Move>, draftRef: DraftRef) {
    && Losses(s, moves, draftRef) == 0 && Count(s, moves, draftRef, PaidElsewhere) == 0
    && Count(s, moves, draftRef, MarkedAbroad) == 0
  }

  lemma Appended(s: Site, moves: seq<Move>, o: Move, draftRef: DraftRef)
    ensures Replay(s, moves + [o]) == Step(Replay(s, moves), o)
    ensures forall note: Note :: Count(s, moves + [o], draftRef, note)
                        == Count(s, moves, draftRef, note)
                           + Flag(NoteOf(Replay(s, moves), o, DraftsFor(s, moves, draftRef), draftRef) == note)
  {
    assert (moves + [o])[..|moves|] == moves;
    hide Step, NoteOf, DraftsFor;
  }

  lemma AppendedOverlaps(s: Site, moves: seq<Move>, o: Move, draftRef: DraftRef)
    requires NeverOverlaps(s, moves, draftRef) && !Overlapping(Replay(s, moves), o, draftRef)
    ensures NeverOverlaps(s, moves + [o], draftRef)
  {
    hide Replay, Overlapping;
    forall k | 0 <= k < |moves| + 1 ensures !Overlapping(Replay(s, (moves + [o])[..k]), (moves + [o])[k], draftRef) {
      assert (moves + [o])[..k] == moves[..k];
      assert moves[..|moves|] == moves;
    }
  }

  lemma OverlapsJoin(s: Site, first: seq<Move>, rest: seq<Move>, draftRef: DraftRef)
    requires NeverOverlaps(s, first, draftRef) && NeverOverlaps(Replay(s, first), rest, draftRef)
    ensures NeverOverlaps(s, first + rest, draftRef)
  {
    hide Replay, Overlapping;
    forall k | 0 <= k < |first + rest| ensures !Overlapping(Replay(s, (first + rest)[..k]), (first + rest)[k], draftRef) {
      if k < |first| {
        assert (first + rest)[..k] == first[..k];
      } else {
        assert (first + rest)[..k] == first + rest[..k - |first|];
        ReplayJoins(s, first, rest[..k - |first|]);
      }
    }
  }

  lemma QuietNeverOverlaps(s: Site, moves: seq<Move>, draftRef: DraftRef)
    requires Quiet(s, moves)
    ensures NeverOverlaps(s, moves, draftRef)
  {
    hide Replay, Vacant, IsClear;
    forall k | 0 <= k < |moves| ensures !Overlapping(Replay(s, moves[..k]), moves[k], draftRef) {
      assert QuietTurn(Replay(s, moves[..k]), moves[k]);
    }
  }

  lemma QuietNotes(s: Site, o: Move, drafts: set<Id>, draftRef: DraftRef)
    requires QuietTurn(s, o)
    ensures var note := NoteOf(s, o, drafts, draftRef); note.NoNote? || note.Pays? || note.Marks?
  {
    hide TurnNote;
  }

  /** Quiet steps disturb nothing, and undo no payment and no mark. */
  lemma {:induction false} QuietGoesOn(s: Site, moves: seq<Move>, rest: seq<Move>, draftRef: DraftRef)
    requires Quiet(Replay(s, moves), rest)
    ensures Replay(s, moves + rest) == Replay(Replay(s, moves), rest)
    ensures forall note: Note | note.PaysUnsettled? || note.Unmarked? || note.PaidElsewhere? || note.MarkedAbroad? ::
              Count(s, moves + rest, draftRef, note) == Count(s, moves, draftRef, note)
    ensures Count(s, moves + rest, draftRef, Pays) >= Count(s, moves, draftRef, Pays)
    ensures Count(s, moves + rest, draftRef, Marks) >= Count(s, moves, draftRef, Marks)
    ensures NeverOverlaps(s, moves, draftRef) ==> NeverOverlaps(s, moves + rest, draftRef)
  {
    hide Step, NoteOf, DraftsFor, QuietTurn, NeverOverlaps, Count;
    QuietNeverOverlaps(Replay(s, moves), rest, draftRef);
    if NeverOverlaps(s, moves, draftRef) {
      OverlapsJoin(s, moves, rest, draftRef);
    }
    if rest == [] {
      assert moves + rest == moves;
    } else {
      var n := |rest| - 1;
      assert Quiet(Replay(s, moves), rest[..n]) by {
        assert forall k :: 0 <= k < n ==> rest[..n][..k] == rest[..k];
      }
      QuietGoesOn(s, moves, rest[..n], draftRef);
      assert moves + rest == (moves + rest[..n]) + [rest[n]];
      Appended(s, moves + rest[..n], rest[n], draftRef);
      assert QuietTurn(Replay(Replay(s, moves), rest[..n]), rest[n]);
      QuietNotes(Replay(s, moves + rest[..n]), rest[n], DraftsFor(s, moves + rest[..n], draftRef), draftRef);
    }
  }

  // ---- The guard of the second request ------------------------------------------------------------------------

  /** Whatever comes next without another overlap and undisturbed, the reference is not awarded twice. */
  ghost predicate AwardSafe(s: Site, moves: seq<Move>, draftRef: DraftRef) {
    forall more :: NeverOverlaps(Replay(s, moves), more, draftRef) && Undisturbed(s, moves + more, draftRef)
                   ==> AwardsFor(s, moves + more, draftRef) <= 1
  }

  /** Whatever comes next without another overlap, the reference stays approved once it is. */
  ghost predicate MarkSafe(s: Site, draftRef: DraftRef) {
    forall more, k :: 0 <= k <= |more| && NeverOverlaps(s, more, draftRef) && IsApproved(Replay(s, more[..k]).twin.events, draftRef)
                      ==> IsApproved(Replay(s, more).twin.events, draftRef)
  }

  lemma {:induction false} AtMostOneInHand(visits: seq<Option<Visit>>, draftRef: DraftRef)
    requires forall i, j :: 0 <= i < j < |visits| && IsFor(visits[i], draftRef) ==> !IsFor(visits[j], draftRef)
    ensures InHand(visits, draftRef) <= 1
  {
    if visits != [] {
      AtMostOneInHand(visits[..|visits| - 1], draftRef);
      if IsFor(visits[|visits| - 1], draftRef) {
        NoneInHand(visits[..|visits| - 1], draftRef);
      }
    }
  }

  lemma ApartIsSafe(s: Site, moves: seq<Move>, draftRef: DraftRef)
    requires AtRest(s) && Drafts.OnceEach(s.twin.books) && !IsApproved(s.twin.events, draftRef) && NeverOverlaps(s, moves, draftRef)
    ensures AwardSafe(s, moves, draftRef) && MarkSafe(Replay(s, moves), draftRef)
  {
    hide Replay, NeverOverlaps, Apart, IsApproved, AwardsFor, Count;
    RestIsApart(s, draftRef);
    ApartWhileNotOverlapping(s, moves, draftRef);
    forall more | NeverOverlaps(Replay(s, moves), more, draftRef) && Undisturbed(s, moves + more, draftRef)
      ensures AwardsFor(s, moves + more, draftRef) <= 1
    {
      OverlapsJoin(s, moves, more, draftRef);
      AwardsWhenApart(s, moves + more, draftRef);
      ApartWhileNotOverlapping(s, moves + more, draftRef);
      ApartHoldsOne(Replay(s, moves + more), draftRef);
    }
    forall more, k | 0 <= k <= |more| && NeverOverlaps(Replay(s, moves), more, draftRef)
                     && IsApproved(Replay(Replay(s, moves), more[..k]).twin.events, draftRef)
      ensures IsApproved(Replay(Replay(s, moves), more).twin.events, draftRef)
    {
      StaysApproved(Replay(s, moves), more, draftRef, k);
    }
  }

  lemma ApartHoldsOne(s: Site, draftRef: DraftRef)
    requires Apart(s, draftRef)
    ensures InHand(s.visits, draftRef) + Flag(IsApproved(s.twin.events, draftRef)) <= 1
  {
    AtMostOneInHand(s.visits, draftRef);
    if IsApproved(s.twin.events, draftRef) {
      NoneInHand(s.visits, draftRef);
    }
    hide InHand;
  }

  lemma TwoInHand(visits: seq<Option<Visit>>, i: nat, j: nat, draftRef: DraftRef)
    requires i < |visits| && j < |visits| && i != j && IsGranted(visits[i], draftRef) == 1 && IsGranted(visits[j], draftRef) == 1
    ensures InHand(visits, draftRef) >= 2
  {
    InHandUpdates(visits, i, None, draftRef);
    InHandUpdates(visits[i := None], j, None, draftRef);
    hide InHand;
  }

  /** Two requests for one reference in flight, one of them only just past the check; both may go on. */
  ghost predicate TwoInFlight(s: Site, i: nat, j: nat, draftRef: DraftRef, owner: Id) {
    && i < |s.visits| && j < |s.visits| && i != j && IsFor(s.visits[i], draftRef) && IsFor(s.visits[j], draftRef)
    && MayGoOn(s.twin, s.visits[i].value, owner) && MayGoOn(s.twin, s.visits[j].value, owner) && s.visits[j].value.Mapped?
  }

  lemma MappedStillMay(t: Twin, t': Twin, v: Visit, v': Visit, owner: Id)
    requires v.Mapped? && MayGoOn(t, v, owner) && MayGoOn(t', v', owner) && t'.books.members == t.books.members
    ensures MayGoOn(t', v, owner)
  {
  }

  lemma BothAreGranted(s: Site, i: nat, j: nat, draftRef: DraftRef, owner: Id) returns (more: seq<Move>)
    requires TwoInFlight(s, i, j, draftRef, owner)
    ensures Quiet(s, more) && InHand(Replay(s, more).visits, draftRef) >= 2
  {
    hide MayGoOn, Replay, Quiet;
    var first := VisitIsGranted(s, i, owner);
    var s1 := Replay(s, first);
    assert s1.visits[j] == s.visits[j];
    MappedStillMay(s.twin, s1.twin, s.visits[j].value, s1.visits[i].value, owner);
    var second := VisitIsGranted(s1, j, owner);
    QuietJoins(s, first, second);
    more := first + second;
    TwoInHand(Replay(s1, second).visits, i, j, draftRef);
  }

  lemma TwoPay(s: Site, moves: seq<Move>, i: nat, j: nat, draftRef: DraftRef, owner: Id)
    requires AtRest(s) && Drafts.OnceEach(s.twin.books) && Undisturbed(s, moves, draftRef)
    requires TwoInFlight(Replay(s, moves), i, j, draftRef, owner)
    ensures !AwardSafe(s, moves, draftRef)
  {
    hide TwoInFlight, Replay, Quiet, NeverOverlaps, Count, InHand, AwardsFor, Drafts.OnceEach;
    var more := BothAreGranted(Replay(s, moves), i, j, draftRef, owner);
    QuietGoesOn(s, moves, more, draftRef);
    QuietNeverOverlaps(Replay(s, moves), more, draftRef);
    AwardsArePaid(s, moves + more, draftRef);
    assert Undisturbed(s, moves + more, draftRef);
  }

  lemma TurnCloses(s: Site, k: nat, owner: Id)
    requires k < |s.visits| && s.visits[k].Some? && s.visits[k].value.Granted? && MayGoOn(s.twin, s.visits[k].value, owner)
    ensures var o := Turn(k, Clear(owner, 0)); var s' := Step(s, o);
            && QuietTurn(s, o) && s'.visits == s.visits[k := None] && s'.twin.books == s.twin.books
            && IsApproved(s'.twin.events, s.visits[k].value.m.draftRef)
  {
    ClosingMarks(s.twin, s.visits[k].value, owner);
    hide Advance, MayGoOn, IsClear;
  }

  /** A request in flight can go on to mark its reference. */
  lemma VisitMarks(s: Site, k: nat, owner: Id) returns (moves: seq<Move>)
    requires k < |s.visits| && s.visits[k].Some? && MayGoOn(s.twin, s.visits[k].value, owner)
    ensures var s' := Replay(s, moves);
            && Quiet(s, moves) && s'.visits == s.visits[k := None] && s'.twin.books.members == s.twin.books.members
            && MayGrant(s'.twin.books, owner) && IsApproved(s'.twin.events, s.visits[k].value.m.draftRef)
  {
    var granted := VisitIsGranted(s, k, owner);
    var s1 := Replay(s, granted);
    TurnCloses(s1, k, owner);
    assert MayGrant(s1.twin.books, owner);
    hide MayGoOn, QuietTurn, Step, Replay, Quiet, MayGrant;
    QuietOne(s1, Turn(k, Clear(owner, 0)));
    QuietJoins(s, granted, [Turn(k, Clear(owner, 0))]);
    moves := granted + [Turn(k, Clear(owner, 0))];
  }

  /** A request just past the check can go on to record its proposal, which leaves its reference unapproved. */
  lemma MappedUnmarks(s: Site, k: nat, owner: Id) returns (moves: seq<Move>)
    requires k < |s.visits| && s.visits[k].Some? && s.visits[k].value.Mapped? && MayGoOn(s.twin, s.visits[k].value, owner)
    ensures var s', v := Replay(s, moves), s.visits[k].value;
            && Quiet(s, moves) && !IsApproved(s'.twin.events, v.m.draftRef)
            && |s'.visits| == |s.visits| && s'.visits[k].Some? && s'.visits == s.visits[k := s'.visits[k]]
            && s'.visits[k].value.Noted? && s'.visits[k].value.m == v.m && MayGoOn(s'.twin, s'.visits[k].value, owner)
            && s'.twin.books.members == s.twin.books.members
  {
    hide MayGoOn, QuietTurn, Step, Replay, Quiet, IsApproved;
    var propose := TurnGoesOn(s, k, owner);
    var s1 := Step(s, propose);
    var record := TurnGoesOn(s1, k, owner);
    QuietOne(s, propose);
    QuietOne(s1, record);
    QuietJoins(s, [propose], [record]);
    moves := [propose] + [record];
  }

  lemma TwoUnmark(s: Site, i: nat, j: nat, draftRef: DraftRef, owner: Id)
    requires TwoInFlight(s, i, j, draftRef, owner)
    ensures !MarkSafe(s, draftRef)
  {
    var first := VisitMarks(s, i, owner);
    var s1 := Replay(s, first);
    assert s1.visits[j] == s.visits[j] && MayGoOn(s1.twin, s.visits[j].value, owner);
    hide MayGoOn, Step, Replay, Quiet, IsApproved, NeverOverlaps;
    var second := MappedUnmarks(s1, j, owner);
    QuietJoins(s, first, second);
    QuietNeverOverlaps(s, first + second, draftRef);
    assert (first + second)[..|first|] == first;
    assert !IsApproved(Replay(s, first + second).twin.events, draftRef);
  }

  /** The requests for this reference that are in flight may all go on, under this owner. */
  ghost predicate Guarded(s: Site, draftRef: DraftRef, owner: Id) {
    MayGrant(s.twin.books, owner)
    && forall k :: 0 <= k < |s.visits| && IsFor(s.visits[k], draftRef) ==> MayGoOn(s.twin, s.visits[k].value, owner)
  }

  /** Main result, overlaps: in every undisturbed history whose requests for a reference have not overlapped, a further request that
    * passes the check leaves the reference safe from a second award, and safe from losing its mark, exactly when no other
    * request for it is in flight. */
  lemma ArrivalIsSafeIff(s: Site, moves: seq<Move>, o: Move, owner: Id)
    requires AtRest(s) && Drafts.OnceEach(s.twin.books) && o.Arrive? && !IsApproved(s.twin.events, o.m.draftRef)
    requires NeverOverlaps(s, moves, o.m.draftRef) && Undisturbed(s, moves, o.m.draftRef)
    requires Enters(Replay(s, moves), o) && Guarded(Replay(s, moves), o.m.draftRef, owner)
    ensures AwardSafe(s, moves + [o], o.m.draftRef) <==> Vacant(Replay(s, moves), o.m.draftRef)
    ensures MarkSafe(Replay(s, moves + [o]), o.m.draftRef) <==> Vacant(Replay(s, moves), o.m.draftRef)
  {
    var draftRef, before := o.m.draftRef, Replay(s, moves);
    Appended(s, moves, o, draftRef);
    if Vacant(before, draftRef) {
      assert !Overlapping(before, o, draftRef);
      hide Replay, NeverOverlaps, Vacant, Enters, Overlapping, Undisturbed, Guarded, AwardSafe, MarkSafe, Step;
      AppendedOverlaps(s, moves, o, draftRef);
      ApartIsSafe(s, moves + [o], draftRef);
    } else {
      var i :| 0 <= i < |before.visits| && IsFor(before.visits[i], draftRef);
      SecondInFlight(before, o, i, owner);
      ArrivalDisturbsNothing(s, moves, o, draftRef);
      hide Replay, NeverOverlaps, Vacant, Enters, Undisturbed, Guarded, AwardSafe, MarkSafe, Step, TwoInFlight;
      TwoPay(s, moves + [o], i, o.slot, draftRef, owner);
      TwoUnmark(Replay(s, moves + [o]), i, o.slot, draftRef, owner);
    }
  }

  lemma SecondInFlight(s: Site, o: Move, i: nat, owner: Id)
    requires Enters(s, o) && i < |s.visits| && IsFor(s.visits[i], o.m.draftRef) && Guarded(s, o.m.draftRef, owner)
    ensures TwoInFlight(Step(s, o), i, o.slot, o.m.draftRef, owner)
  {
  }

  lemma ArrivalDisturbsNothing(s: Site, moves: seq<Move>, o: Move, draftRef: DraftRef)
    requires o.Arrive? && Undisturbed(s, moves, draftRef)
    ensures Undisturbed(s, moves + [o], draftRef)
  {
    Appended(s, moves, o, draftRef);
    hide Replay, Count, Step;
  }

  // ---- Histories that award twice -----------------------------------------------------------------------------

  /** A well-formed request for an unapproved reference of a mapped author, a free slot, and an owner who can approve it. */
  predicate MayArrive(s: Site, k: nat, m: Merge, owner: Id) {
    && k < |s.visits| && s.visits[k].None? && MayGrant(s.twin.books, owner) && !IsMalformed(m)
    && ActiveMember(s.twin.books.members, m.author).Some? && !IsApproved(s.twin.events, m.draftRef)
  }

  /** Two histories that differ in payments and marks at most. */
  predicate AsDisturbed(s: Site, first: seq<Move>, second: seq<Move>, draftRef: DraftRef) {
    && Count(s, first, draftRef, PaysUnsettled) == Count(s, second, draftRef, PaysUnsettled)
    && Count(s, first, draftRef, Unmarked) == Count(s, second, draftRef, Unmarked)
    && Count(s, first, draftRef, PaidElsewhere) == Count(s, second, draftRef, PaidElsewhere)
    && Count(s, first, draftRef, MarkedAbroad) == Count(s, second, draftRef, MarkedAbroad)
  }

  lemma ArrivalMaps(s: Site, k: nat, m: Merge, owner: Id)
    requires MayArrive(s, k, m, owner)
    ensures var after := Step(s, Arrive(k, m));
            && after.twin == s.twin && |after.visits| == |s.visits| && after.visits == s.visits[k := after.visits[k]]
            && after.visits[k].Some? && after.visits[k].value.Mapped? && after.visits[k].value.m == m
            && MayGoOn(after.twin, after.visits[k].value, owner)
  {
  }

  lemma RequestArrives(s: Site, moves: seq<Move>, k: nat, m: Merge, owner: Id)
    requires MayArrive(Replay(s, moves), k, m, owner)
    ensures var before, after := Replay(s, moves), Replay(s, moves + [Arrive(k, m)]);
            && after.twin == before.twin && |after.visits| == |before.visits|
            && after.visits == before.visits[k := after.visits[k]] && after.visits[k].Some?
            && after.visits[k].value.Mapped? && after.visits[k].value.m == m && MayGoOn(after.twin, after.visits[k].value, owner)
    ensures AsDisturbed(s, moves + [Arrive(k, m)], moves, m.draftRef)
    ensures Count(s, moves + [Arrive(k, m)], m.draftRef, Marks) == Count(s, moves, m.draftRef, Marks)
    ensures NeverOverlaps(s, moves, m.draftRef) && Vacant(Replay(s, moves), m.draftRef) ==>
              NeverOverlaps(s, moves + [Arrive(k, m)], m.draftRef)
  {
    var o, before := Arrive(k, m), Replay(s, moves);
    ArrivalMaps(before, k, m, owner);
    Appended(s, moves, o, m.draftRef);
    hide Replay, Step, Count, NeverOverlaps, Vacant, Arriving, MayArrive, MayGoOn;
    if NeverOverlaps(s, moves, m.draftRef) && Vacant(before, m.draftRef) {
      AppendedOverlaps(s, moves, o, m.draftRef);
    }
  }

  /** A reference that quiet steps leave approved was approved already, or they marked it. */
  lemma {:induction false} QuietMarks(s: Site, moves: seq<Move>, rest: seq<Move>, draftRef: DraftRef)
    requires Quiet(Replay(s, moves), rest)
    ensures !IsApproved(Replay(s, moves).twin.events, draftRef) && IsApproved(Replay(s, moves + rest).twin.events, draftRef) ==>
              Count(s, moves + rest, draftRef, Marks) > Count(s, moves, draftRef, Marks)
  {
    hide Step, NoteOf, DraftsFor, QuietTurn, Count, IsApproved;
    if rest == [] {
      assert moves + rest == moves;
    } else {
      var n := |rest| - 1;
      var first, o := moves + rest[..n], rest[n];
      assert Quiet(Replay(s, moves), rest[..n]) by {
        assert forall k :: 0 <= k < n ==> rest[..n][..k] == rest[..k];
      }
      assert moves + rest == first + [o];
      Appended(s, first, o, draftRef);
      QuietGoesOn(s, moves, rest[..n], draftRef);
      QuietMarks(s, moves, rest[..n], draftRef);
      assert QuietTurn(Replay(Replay(s, moves), rest[..n]), o);
      TurnMarks(Replay(s, first), o, DraftsFor(s, first, draftRef), draftRef);
    }
  }

  lemma TurnMarks(s: Site, o: Move, drafts: set<Id>, draftRef: DraftRef)
    requires QuietTurn(s, o)
    ensures !IsApproved(s.twin.events, draftRef) && IsApproved(Step(s, o).twin.events, draftRef) ==> NoteOf(s, o, drafts, draftRef).Marks?
  {
    if Turns(s, o) {
      AdvanceMarks(s.twin, s.visits[o.slot].value, o.c, draftRef);
    }
    hide Advance, IsApproved, TurnNote;
  }

  /** A request in flight for an unapproved reference goes on to mark it. */
  lemma RequestMerges(s: Site, moves: seq<Move>, k: nat, owner: Id) returns (longer: seq<Move>)
    ensures moves <= longer
    requires var before := Replay(s, moves);
             && k < |before.visits| && before.visits[k].Some? && MayGoOn(before.twin, before.visits[k].value, owner)
             && !IsApproved(before.twin.events, before.visits[k].value.m.draftRef)
    ensures var before, after := Replay(s, moves), Replay(s, longer); var draftRef := before.visits[k].value.m.draftRef;
            && after.visits == before.visits[k := None] && after.twin.books.members == before.twin.books.members
            && MayGrant(after.twin.books, owner) && IsApproved(after.twin.events, draftRef)
            && AsDisturbed(s, longer, moves, draftRef) && Count(s, longer, draftRef, Marks) > Count(s, moves, draftRef, Marks)
            && (NeverOverlaps(s, moves, draftRef) ==> NeverOverlaps(s, longer, draftRef))
  {
    var draftRef := Replay(s, moves).visits[k].value.m.draftRef;
    var rest := VisitMarks(Replay(s, moves), k, owner);
    hide Replay, Count, NeverOverlaps, Quiet, IsApproved, MayGoOn, MayGrant;
    QuietGoesOn(s, moves, rest, draftRef);
    QuietMarks(s, moves, rest, draftRef);
    longer := moves + rest;
  }

  /** A request just past the check goes on to record its proposal. */
  lemma RequestIsNoted(s: Site, moves: seq<Move>, k: nat, owner: Id) returns (longer: seq<Move>)
    ensures moves <= longer
    requires var before := Replay(s, moves);
             && k < |before.visits| && before.visits[k].Some? && before.visits[k].value.Mapped?
             && MayGoOn(before.twin, before.visits[k].value, owner)
    ensures var before, after := Replay(s, moves), Replay(s, longer); var m := before.visits[k].value.m;
            && |after.visits| == |before.visits| && after.visits == before.visits[k := after.visits[k]] && after.visits[k].Some?
            && after.visits[k].value.Noted? && after.visits[k].value.m == m && MayGoOn(after.twin, after.visits[k].value, owner)
            && after.twin.books.members == before.twin.books.members && !IsApproved(after.twin.events, m.draftRef)
            && AsDisturbed(s, longer, moves, m.draftRef) && Count(s, longer, m.draftRef, Marks) >= Count(s, moves, m.draftRef, Marks)
            && (NeverOverlaps(s, moves, m.draftRef) ==> NeverOverlaps(s, longer, m.draftRef))
  {
    var draftRef := Replay(s, moves).visits[k].value.m.draftRef;
    var rest := MappedUnmarks(Replay(s, moves), k, owner);
    hide Replay, Count, NeverOverlaps, Quiet, IsApproved, MayGoOn, MayGrant;
    QuietGoesOn(s, moves, rest, draftRef);
    longer := moves + rest;
  }

  ghost predicate AwardedTwice(s: Site, moves: seq<Move>, draftRef: DraftRef) {
    AwardsFor(s, moves, draftRef) >= 2 && IsApproved(Replay(s, moves).twin.events, draftRef) && AtRest(Replay(s, moves))
  }

  /** The owner leaves while a request is about to approve as the owner, and comes back. */
  function Away(k: nat, owner: Id): seq<Move> {
    [Elsewhere(History.SetMemberStatus(owner, MemberLeft)), Turn(k, Clear(owner, 0)),
     Elsewhere(History.SetMemberStatus(owner, MemberActive))]
  }

  /** A move that leaves the counts of a reference, the overlaps and the drafts as they are. */
  lemma QuietlyAppended(s: Site, moves: seq<Move>, o: Move, draftRef: DraftRef)
    requires !o.Arrive? && !o.Abroad? && NoteOf(Replay(s, moves), o, DraftsFor(s, moves, draftRef), draftRef).NoNote?
    ensures Replay(s, moves + [o]) == Step(Replay(s, moves), o)
    ensures AsDisturbed(s, moves + [o], moves, draftRef) && Count(s, moves + [o], draftRef, Marks) == Count(s, moves, draftRef, Marks)
    ensures NeverOverlaps(s, moves, draftRef) ==> NeverOverlaps(s, moves + [o], draftRef)
    ensures DraftsFor(s, moves, draftRef) <= DraftsFor(s, moves + [o], draftRef)
  {
    Appended(s, moves, o, draftRef);
    DraftsGrow(s, moves, o, draftRef);
    assert !Overlapping(Replay(s, moves), o, draftRef);
    hide Replay, Count, NeverOverlaps, DraftsFor, Step, NoteOf, Overlapping;
    if NeverOverlaps(s, moves, draftRef) {
      AppendedOverlaps(s, moves, o, draftRef);
    }
  }

  /** The run is refused, and the proposed draft is left behind pending. */
  lemma AwayRefuses(s: Site, moves: seq<Move>, k: nat, owner: Id, draftRef: DraftRef)
    requires var before := Replay(s, moves);
             k < |before.visits| && before.visits[k].Some? && before.visits[k].value.Noted? && IsActive(before.twin.books, owner)
    ensures var before := Replay(s, moves); Replay(s, moves + Away(k, owner)) == before.(visits := before.visits[k := None])
    ensures AsDisturbed(s, moves + Away(k, owner), moves, draftRef)
    ensures Count(s, moves + Away(k, owner), draftRef, Marks) == Count(s, moves, draftRef, Marks)
    ensures NeverOverlaps(s, moves, draftRef) ==> NeverOverlaps(s, moves + Away(k, owner), draftRef)
    ensures DraftsFor(s, moves, draftRef) <= DraftsFor(s, moves + Away(k, owner), draftRef)
  {
    var away := Away(k, owner);
    var h1 := moves + [away[0]];
    var h2 := h1 + [away[1]];
    assert moves + away == h2 + [away[2]];
    LeavingRefuses(Replay(s, moves), k, owner);
    hide Replay, Count, NeverOverlaps, DraftsFor, Step, TurnNote;
    QuietlyAppended(s, moves, away[0], draftRef);
    QuietlyAppended(s, h1, away[1], draftRef);
    QuietlyAppended(s, h2, away[2], draftRef);
  }

  lemma LeavingRefuses(s: Site, k: nat, owner: Id)
    requires k < |s.visits| && s.visits[k].Some? && s.visits[k].value.Noted? && IsActive(s.twin.books, owner)
    ensures var s1 := Step(s, Away(k, owner)[0]); var s2 := Step(s1, Away(k, owner)[1]);
            && Step(s2, Away(k, owner)[2]) == s.(visits := s.visits[k := None])
            && Turns(s1, Away(k, owner)[1]) && TurnNote(s1.twin, s1.visits[k].value, Clear(owner, 0)).NoNote?
  {
    var b := s.twin.books;
    var left := b.members[owner := b.members[owner].(status := MemberLeft)];
    assert left[owner := left[owner].(status := MemberActive)] == b.members;
    hide Gate, Admitted;
  }

  lemma DraftsGrow(s: Site, moves: seq<Move>, o: Move, draftRef: DraftRef)
    ensures DraftsFor(s, moves, draftRef) <= DraftsFor(s, moves + [o], draftRef)
  {
    assert (moves + [o])[..|moves|] == moves;
    hide Proposes;
  }

  /** A request that may arrive is retried: it merges and marks the reference. */
  lemma RetryMerges(s: Site, moves: seq<Move>, k: nat, m: Merge, owner: Id) returns (longer: seq<Move>)
    requires MayArrive(Replay(s, moves), k, m, owner) && AtRest(Replay(s, moves))
    ensures moves <= longer && AsDisturbed(s, longer, moves, m.draftRef)
    ensures IsApproved(Replay(s, longer).twin.events, m.draftRef) && AtRest(Replay(s, longer))
    ensures Count(s, longer, m.draftRef, Marks) > Count(s, moves, m.draftRef, Marks)
    ensures NeverOverlaps(s, moves, m.draftRef) ==> NeverOverlaps(s, longer, m.draftRef)
  {
    RestIsApart(Replay(s, moves), m.draftRef);
    RequestArrives(s, moves, k, m, owner);
    hide Replay, Count, NeverOverlaps, Vacant, IsApproved, MayGoOn, MayGrant;
    longer := RequestMerges(s, moves + [Arrive(k, m)], k, owner);
  }

  /** A first request is served up to its approval. */
  lemma FirstIsNoted(s: Site, m: Merge, owner: Id) returns (moves: seq<Move>)
    requires AtRest(s) && MayArrive(s, 0, m, owner)
    ensures var after := Replay(s, moves);
            && NeverOverlaps(s, moves, m.draftRef) && AsDisturbed(s, moves, [], m.draftRef) && |after.visits| == |s.visits|
            && after.visits == s.visits[0 := after.visits[0]] && after.visits[0].Some? && after.visits[0].value.Noted?
            && after.visits[0].value.m == m && MayGoOn(after.twin, after.visits[0].value, owner)
            && after.twin.books.members == s.twin.books.members && !IsApproved(after.twin.events, m.draftRef)
  {
    assert Replay(s, []) == s && NeverOverlaps(s, [], m.draftRef);
    RestIsApart(s, m.draftRef);
    hide Replay, Step, Count, NeverOverlaps, Vacant, IsApproved, MayGoOn, MayGrant, MayArrive, ActiveMember, Apart;
    RequestArrives(s, [], 0, m, owner);
    moves := RequestIsNoted(s, [] + [Arrive(0, m)], 0, owner);
  }

  /** Two requests pass the check; the first marks the reference, the second unmarks it. */
  lemma SecondUnmarks(s: Site, m: Merge, owner: Id) returns (marked: seq<Move>, unmarked: seq<Move>)
    requires AtRest(s) && |s.visits| >= 2 && MayArrive(s, 0, m, owner)
    ensures marked <= unmarked && AsDisturbed(s, unmarked, [], m.draftRef) && Count(s, unmarked, m.draftRef, Marks) >= 1
    ensures IsApproved(Replay(s, marked).twin.events, m.draftRef)
    ensures var after := Replay(s, unmarked);
            && |after.visits| == |s.visits| && after.visits == s.visits[1 := after.visits[1]]
            && after.visits[1].Some? && after.visits[1].value.Noted? && after.visits[1].value.m == m
            && MayGoOn(after.twin, after.visits[1].value, owner) && after.twin.books.members == s.twin.books.members
            && !IsApproved(after.twin.events, m.draftRef)
  {
    assert Replay(s, []) == s && MayArrive(s, 1, m, owner);
    RequestArrives(s, [], 0, m, owner);
    var first := [] + [Arrive(0, m)];
    RequestArrives(s, first, 1, m, owner);
    var both := first + [Arrive(1, m)];
    assert MayGoOn(Replay(s, both).twin, Replay(s, both).visits[0].value, owner);
    marked := RequestMerges(s, both, 0, owner);
    assert MayGoOn(Replay(s, marked).twin, Replay(s, marked).visits[1].value, owner);
    hide Replay, MayGoOn, MayGrant, IsApproved, Count, NeverOverlaps;
    unmarked := RequestIsNoted(s, marked, 1, owner);
  }

  /** From a site at rest, two requests that both pass the check, and lose nothing, both merge and award their reference twice. */
  lemma OverlappingMergesAwardTwice(s: Site, m: Merge, owner: Id)
    requires AtRest(s) && Drafts.OnceEach(s.twin.books) && |s.visits| >= 2 && MayArrive(s, 0, m, owner)
    ensures exists moves :: Undisturbed(s, moves, m.draftRef) && AwardedTwice(s, moves, m.draftRef)
  {
    var marked, unmarked := SecondUnmarks(s, m, owner);
    var merged := RequestMerges(s, unmarked, 1, owner);
    assert AtRest(Replay(s, merged));
    hide Replay, MayGoOn, MayGrant, AwardsFor, IsApproved;
    AwardsAreMarksLossesAndLeftovers(s, merged, m.draftRef);
    assert Undisturbed(s, merged, m.draftRef) && AwardedTwice(s, merged, m.draftRef);
  }

  /** A reference is approved, then a request that had passed the check before unmarks it and is refused, then a retry merges. */
  ghost predicate Reopens(s: Site, marked: seq<Move>, reopened: seq<Move>, merged: seq<Move>, draftRef: DraftRef) {
    && marked <= reopened <= merged && IsApproved(Replay(s, marked).twin.events, draftRef)
    && !IsApproved(Replay(s, reopened).twin.events, draftRef) && AtRest(Replay(s, reopened))
    && Undisturbed(s, merged, draftRef) && AwardedTwice(s, merged, draftRef)
  }

  /** The second request unmarks the reference and is then refused. */
  lemma SecondIsRefused(s: Site, m: Merge, owner: Id) returns (marked: seq<Move>, reopened: seq<Move>)
    requires AtRest(s) && |s.visits| >= 2 && MayArrive(s, 0, m, owner)
    ensures marked <= reopened && AsDisturbed(s, reopened, [], m.draftRef) && Count(s, reopened, m.draftRef, Marks) >= 1
    ensures IsApproved(Replay(s, marked).twin.events, m.draftRef) && !IsApproved(Replay(s, reopened).twin.events, m.draftRef)
    ensures AtRest(Replay(s, reopened)) && MayArrive(Replay(s, reopened), 0, m, owner)
  {
    var unmarked;
    marked, unmarked := SecondUnmarks(s, m, owner);
    AwayRefuses(s, unmarked, 1, owner, m.draftRef);
    reopened := unmarked + Away(1, owner);
    hide Replay, MayGrant, IsApproved, Count, ActiveMember, Away;
  }

  /** From a site at rest, one of two overlapping requests merges, the other unmarks its reference and is refused as the owner is
    * away, and a retry is awarded a second time: nothing was lost. */
  lemma OverlapReopens(s: Site, m: Merge, owner: Id)
    requires AtRest(s) && Drafts.OnceEach(s.twin.books) && |s.visits| >= 2 && MayArrive(s, 0, m, owner)
    ensures exists marked, reopened, merged :: Reopens(s, marked, reopened, merged, m.draftRef)
  {
    hide Replay, MayArrive, AwardsFor, IsApproved, Count, AtRest;
    var marked, reopened := SecondIsRefused(s, m, owner);
    var merged := RetryMerges(s, reopened, 0, m, owner);
    AwardsAreMarksLossesAndLeftovers(s, merged, m.draftRef);
    assert Undisturbed(s, merged, m.draftRef) && AwardedTwice(s, merged, m.draftRef) by { NothingCounted(s, m.draftRef); }
    assert Reopens(s, marked, reopened, merged, m.draftRef);
  }

  lemma NothingCounted(s: Site, draftRef: DraftRef)
    ensures forall note: Note :: Count(s, [], draftRef, note) == 0
  {
  }

  /** Another run, which names the draft that a refused request left behind. */
  function Approves(m: Merge, owner: Id, draft: Id, now: int): Move {
    Elsewhere(History.RunTool(ApprovalOf(m, owner, draft), now, false, NoFault))
  }

  lemma LeftoverPays(s: Site, m: Merge, owner: Id, draft: Id, drafts: set<Id>, draftRef: DraftRef) returns (now: int)
    requires MayGrant(s.twin.books, owner) && m.units > 0 && draft in s.twin.books.pending && draft in drafts
    ensures var o := Approves(m, owner, draft, now); var s' := Step(s, o);
            && NoteOf(s, o, drafts, draftRef).PaidElsewhere? && s'.visits == s.visits && s'.twin.events == s.twin.events
            && s'.twin.books.members == s.twin.books.members && MayGrant(s'.twin.books, owner)
  {
    hide Run, RateLimit.CheckAndIncrement;
    now := GateOpens(s.twin.books, owner);
    ApprovalCompletes(s.twin.books, ApprovalOf(m, owner, draft), now, NoFault);
  }

  lemma NotedOwnsDraft(s: Site, moves: seq<Move>, k: nat, draftRef: DraftRef)
    requires AtRest(s) && Drafts.OnceEach(s.twin.books)
    requires var after := Replay(s, moves); k < |after.visits| && IsFor(after.visits[k], draftRef) && after.visits[k].value.Noted?
    ensures ProposedDraft(Replay(s, moves).visits[k].value.proposeLog) in DraftsFor(s, moves, draftRef)
  {
    StaysOwned(s, moves, draftRef);
    assert OwnsDraft(Replay(s, moves).visits[k], Replay(s, moves).twin.books.next, DraftsFor(s, moves, draftRef), draftRef);
    hide Replay, DraftsFor, ProposedDraft;
  }

  /** A refused request's draft is awarded by another run. */
  lemma LeftoverIsPaid(s: Site, m: Merge, owner: Id) returns (moves: seq<Move>)
    requires AtRest(s) && Drafts.OnceEach(s.twin.books) && MayArrive(s, 0, m, owner)
    ensures NeverOverlaps(s, moves, m.draftRef) && Losses(s, moves, m.draftRef) == 0 && Count(s, moves, m.draftRef, PaidElsewhere) == 1
    ensures AtRest(Replay(s, moves)) && MayArrive(Replay(s, moves), 0, m, owner)
  {
    var draftRef := m.draftRef;
    var first := FirstIsNoted(s, m, owner);
    var v := Replay(s, first).visits[0].value;
    NotedOwnsDraft(s, first, 0, draftRef);
    AwayRefuses(s, first, 0, owner, draftRef);
    var refused := first + Away(0, owner);
    var draft := ProposedDraft(v.proposeLog);
    var now := LeftoverPays(Replay(s, refused), m, owner, draft, DraftsFor(s, refused, draftRef), draftRef);
    hide Replay, Step, NeverOverlaps, MayGoOn, MayGrant, DraftsFor, IsApproved, ActiveMember;
    Appended(s, refused, Approves(m, owner, draft, now), draftRef);
    AppendedOverlaps(s, refused, Approves(m, owner, draft, now), draftRef);
    moves := refused + [Approves(m, owner, draft, now)];
  }

  /** From a site at rest with a single slot, nothing overlapping and nothing lost: an approval is refused, another run awards the
    * draft it left behind, and the retry is awarded again. */
  lemma LeftoverIsAwarded(s: Site, m: Merge, owner: Id)
    requires AtRest(s) && Drafts.OnceEach(s.twin.books) && MayArrive(s, 0, m, owner)
    ensures exists moves :: NeverOverlaps(s, moves, m.draftRef) && Losses(s, moves, m.draftRef) == 0 && AwardedTwice(s, moves, m.draftRef)
                            && Count(s, moves, m.draftRef, PaidElsewhere) == 1
  {
    var paid := LeftoverIsPaid(s, m, owner);
    hide Replay, NeverOverlaps, MayArrive, AwardsFor, IsApproved, Count;
    var moves := RetryMerges(s, paid, 0, m, owner);
    AwardsAreMarksLossesAndLeftovers(s, moves, m.draftRef);
    assert AwardedTwice(s, moves, m.draftRef);
  }

  lemma UnsettledPays(s: Site, k: nat, owner: Id) returns (c: Conditions)
    requires k < |s.visits| && s.visits[k].Some? && s.visits[k].value.Noted? && MayGoOn(s.twin, s.visits[k].value, owner)
    ensures var s' := Step(s, Turn(k, c));
            && TurnNote(s.twin, s.visits[k].value, c).PaysUnsettled? && s'.visits == s.visits[k := None]
            && s'.twin.events == s.twin.events && s'.twin.books.members == s.twin.books.members && MayGrant(s'.twin.books, owner)
  {
    hide Run, RateLimit.CheckAndIncrement, ProposedDraft;
    var v := s.visits[k].value;
    var now := GateOpens(s.twin.books, owner);
    c := Clear(owner, now).(approve := Circumstance(now, false, SettleFails));
    ApprovalCompletes(s.twin.books, ApprovalOf(v.m, owner, ProposedDraft(v.proposeLog)), now, SettleFails);
  }

  /** An approval fails in Step 7. */
  lemma MarkIsLost(s: Site, m: Merge, owner: Id) returns (moves: seq<Move>)
    requires AtRest(s) && MayArrive(s, 0, m, owner)
    ensures NeverOverlaps(s, moves, m.draftRef) && Losses(s, moves, m.draftRef) == 1 && Count(s, moves, m.draftRef, PaidElsewhere) == 0
    ensures AtRest(Replay(s, moves)) && MayArrive(Replay(s, moves), 0, m, owner)
  {
    var first := FirstIsNoted(s, m, owner);
    var c := UnsettledPays(Replay(s, first), 0, owner);
    hide Replay, Step, NeverOverlaps, MayGoOn, MayGrant, IsApproved, ActiveMember;
    Appended(s, first, Turn(0, c), m.draftRef);
    AppendedOverlaps(s, first, Turn(0, c), m.draftRef);
    moves := first + [Turn(0, c)];
  }

  /** From a site at rest with a single slot, nothing overlapping and no leftover awarded: an approval fails in Step 7, and the
    * retry is awarded again. */
  lemma RetriedLossAwardsTwice(s: Site, m: Merge, owner: Id)
    requires AtRest(s) && Drafts.OnceEach(s.twin.books) && MayArrive(s, 0, m, owner)
    ensures exists moves :: NeverOverlaps(s, moves, m.draftRef) && Losses(s, moves, m.draftRef) == 1 && AwardedTwice(s, moves, m.draftRef)
                            && Count(s, moves, m.draftRef, PaidElsewhere) == 0
  {
    var lost := MarkIsLost(s, m, owner);
    hide Replay, NeverOverlaps, MayArrive, AwardsFor, IsApproved, Count;
    var moves := RetryMerges(s, lost, 0, m, owner);
    AwardsAreMarksLossesAndLeftovers(s, moves, m.draftRef);
    assert AwardedTwice(s, moves, m.draftRef);
  }
}
