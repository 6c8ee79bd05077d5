/** The git bridge when requests interleave: a request in five steps, many at once, with the covenant's other operations and the
  * requests of other covenants in between (handleGitTwinMerge, internal/api/git_twin.go). */
module BridgeFloor {
  import opened Common
  import opened Books
  import opened Engine
  import opened GitTwin
  import Drafts
  import History
  import Overlaps
  import RateLimit

  // ---- Steps ----------------------------------------------------------------------------------------------

  /** How far a request has come: checked and mapped to its author; proposed; recorded as proposed; approved. */
  datatype Visit =
    | Mapped(m: Merge, agent: Id)
    | Proposed(m: Merge, agent: Id, proposeLog: Id)
    | Noted(m: Merge, agent: Id, proposeLog: Id)
    | Granted(m: Merge, proposeLog: Id, approveLog: Id)

  datatype Progress = Going(visit: Visit) | Done(response: Response)

  /** The idempotency check and the author mapping. */
  function Arriving(t: Twin, m: Merge): Progress {
    if IsMalformed(m) then Done(BadRequest)
    else if IsApproved(t.events, m.draftRef) then Done(AlreadyApproved(t.events[m.draftRef]))
    else if ActiveMember(t.books.members, m.author).None? then Done(Unmapped)
    else Going(Mapped(m, ActiveMember(t.books.members, m.author).value))
  }

  function Proposing(b: Books, m: Merge, agent: Id, c: Conditions): (Books, Outcome) {
    Run(b, ProposalOf(m, agent), c.propose.now, c.propose.prune, c.propose.fault)
  }

  function Granting(b: Books, m: Merge, owner: Id, draft: Id, c: Conditions): (Books, Outcome) {
    Run(b, ApprovalOf(m, owner, draft), c.approve.now, c.approve.prune, c.approve.fault)
  }

  /** The next step of a request: propose, record, approve, close. */
  function Advance(t: Twin, v: Visit, c: Conditions): (Twin, Progress) {
    match v
    case Mapped(m, agent) =>
      var (books, outcome) := Proposing(t.books, m, agent, c);
      (t.(books := books), if outcome.Completed? then Going(Proposed(m, agent, outcome.logId)) else Done(ProposeFailed))
    case Proposed(m, agent, log) => (t.(events := Recorded(t.events, m, agent, log, c.recordLost)), Going(Noted(m, agent, log)))
    case Noted(m, agent, log) =>
      if c.owner.None? then (t, Done(NoOwner))
      else
        var (books, outcome) := Granting(t.books, m, c.owner.value, ProposedDraft(log), c);
        (t.(books := books), if outcome.Completed? then Going(Granted(m, log, outcome.logId)) else Done(ApproveFailed(outcome)))
    case Granted(m, log, approveLog) => (t.(events := Closed(t.events, m, approveLog, c.closeLost)), Done(Merged(log, approveLog)))
  }

  function StepsLeft(p: Progress): nat {
    match p
    case Done(_) => 0
    case Going(v) => if v.Mapped? then 4 else if v.Proposed? then 3 else if v.Noted? then 2 else 1
  }

  function Finished(t: Twin, p: Progress, c: Conditions): (Twin, Response)
    decreases StepsLeft(p)
  {
    match p
    case Done(response) => (t, response)
    case Going(v) =>
      var (t', p') := Advance(t, v, c);
      assert StepsLeft(p') < StepsLeft(p);
      Finished(t', p', c)
  }

  lemma OneMoreStep(t: Twin, v: Visit, c: Conditions)
    ensures var (t', p') := Advance(t, v, c);
            Finished(t, Going(v), c) == (if p'.Done? then (t', p'.response) else Finished(t', p', c))
  {
    hide Run, Recorded, Closed;
  }

  lemma NotedFinishes(t: Twin, m: Merge, agent: Id, log: Id, c: Conditions)
    ensures Finished(t.(events := Recorded(t.events, m, agent, log, c.recordLost)), Going(Noted(m, agent, log)), c)
         == Approving(t, m, c, agent, log)
  {
    hide Recorded, Closed, Run, Finished;
    var noted := t.(events := Recorded(t.events, m, agent, log, c.recordLost));
    OneMoreStep(noted, Noted(m, agent, log), c);
    var (granted, p) := Advance(noted, Noted(m, agent, log), c);
    if p.Going? {
      OneMoreStep(granted, p.visit, c);
    }
  }

  /** The steps refine the handler: taken without another move in between, they are handleGitTwinMerge. */
  lemma SoloVisitIsHandle(t: Twin, m: Merge, c: Conditions)
    ensures Finished(t, Arriving(t, m), c) == Handle(t, m, c)
  {
    var p := Arriving(t, m);
    if p.Going? {
      hide Recorded, Closed, Run, Approving, Finished;
      OneMoreStep(t, p.visit, c);
      var (proposed, p') := Advance(t, p.visit, c);
      if p'.Going? {
        OneMoreStep(proposed, p'.visit, c);
        NotedFinishes(proposed, m, p.visit.agent, p'.visit.proposeLog, c);
      }
    }
  }

  // ---- Many requests --------------------------------------------------------------------------------------

  /** The covenant, and the requests in flight. */
  datatype Site = Site(twin: Twin, visits: seq<Option<Visit>>)

  /** Elsewhere is any other operation of the covenant. Abroad is a write of another covenant's request to the shared
    * git_twin_events, which is keyed by the reference alone. */
  datatype Move =
    | Arrive(slot: nat, m: Merge)
    | Turn(slot: nat, c: Conditions)
    | Elsewhere(op: History.Op)
    | Abroad(draftRef: DraftRef, event: Event)

  function Slotted(p: Progress): Option<Visit> {
    if p.Going? then Some(p.visit) else None
  }

  predicate Enters(s: Site, o: Move) {
    o.Arrive? && o.slot < |s.visits| && s.visits[o.slot].None? && Arriving(s.twin, o.m).Going?
  }

  predicate Turns(s: Site, o: Move) {
    o.Turn? && o.slot < |s.visits| && s.visits[o.slot].Some?
  }

  function Step(s: Site, o: Move): Site {
    match o
    case Arrive(k, m) => if Enters(s, o) then s.(visits := s.visits[k := Slotted(Arriving(s.twin, m))]) else s
    case Turn(k, c) =>
      if !Turns(s, o) then s
      else
        var (t', p') := Advance(s.twin, s.visits[k].value, c);
        Site(t', s.visits[k := Slotted(p')])
    case Elsewhere(op) => s.(twin := s.twin.(books := History.Step(s.twin.books, op)))
    case Abroad(draftRef, event) => s.(twin := s.twin.(events := s.twin.events[draftRef := event]))
  }

  function Replay(s: Site, moves: seq<Move>): Site {
    if moves == [] then s else Step(Replay(s, moves[..|moves| - 1]), moves[|moves| - 1])
  }

  ghost predicate AtRest(s: Site) {
    forall k :: 0 <= k < |s.visits| ==> s.visits[k] == None
  }

  // ---- Awards of any run --------------------------------------------------------------------------------------

  /** The draft a run awards, named or found through a log. */
  function AwardedBy(b: Books, call: Call, now: int, prune: bool, fault: Fault): Option<Id> {
    if call.CallApprove? && Awards(Run(b, call, now, prune, fault).1) then ResolveDraft(b, call.target) else None
  }

  function One(draft: Option<Id>): seq<Id> {
    if draft.Some? then [draft.value] else []
  }

  lemma GrowsRefs(ledger: seq<LedgerRow>, ledger': seq<LedgerRow>, agent: Id, draft: Id)
    requires Grew(ledger, ledger', agent, draft)
    ensures Overlaps.AwardRefs(ledger') == Overlaps.AwardRefs(ledger) + [draft]
  {
    assert ledger' == ledger + [ledger'[|ledger|]];
    Overlaps.RowAddsRef(ledger, ledger'[|ledger|]);
  }

  lemma ApplyKeepsRefs(b: Books, call: Call, work: Work, tokens: int, logId: Id, fault: Fault)
    requires !work.Claimed?
    ensures var b' := Apply(b, call, work, tokens, logId, fault).0;
            Overlaps.AwardRefs(b'.ledger) == Overlaps.AwardRefs(b.ledger) && b'.next >= b.next
  {
    var b' := Apply(b, call, work, tokens, logId, fault).0;
    if work.ToReverse? {
      Overlaps.ReversalKeepsRefs(b.ledger, work.logId);
    } else if b'.ledger != b.ledger {
      assert b'.ledger == b.ledger + [b'.ledger[|b.ledger|]];
      Overlaps.RowAddsRef(b.ledger, b'.ledger[|b.ledger|]);
    }
    hide Overlaps.AwardRefs, HasPlatform, Reverse;
  }

  lemma OtherPerformsKeepRefs(b: Books, call: Call, reservation: Option<Id>, fault: Fault)
    requires !call.CallApprove?
    ensures Overlaps.AwardRefs(Perform(b, call, reservation, fault).0.ledger) == Overlaps.AwardRefs(b.ledger)
  {
    hide Apply, SetReservation, RecordSpend, FinalEffects, Overlaps.AwardRefs, Estimate, CostOfLog;
    Drafts.BookkeepingKeepsDrafts(b, reservation, Released, 0, 0);
    if Execute(b, call).Some? {
      var (executed, work) := Execute(b, call).value;
      var effects := FinalEffects(executed, call, work);
      var logged := AppendLog(executed, call, Success, effects.tokens, effects.cost);
      ApplyKeepsRefs(logged, call, work, effects.tokens, executed.next, fault);
      var applied := Apply(logged, call, work, effects.tokens, executed.next, fault).0;
      Drafts.BookkeepingKeepsDrafts(executed, reservation, Released, 0, 0);
      Drafts.BookkeepingKeepsDrafts(applied, reservation, Released, Estimate(call), executed.next);
    }
  }

  lemma OtherRunsKeepRefs(b: Books, call: Call, now: int, prune: bool, fault: Fault)
    requires !call.CallApprove?
    ensures Overlaps.AwardRefs(Run(b, call, now, prune, fault).0.ledger) == Overlaps.AwardRefs(b.ledger)
  {
    hide Perform, Gate, Reserve, Estimate, Permitted, IsActive, LogRefusal, Overlaps.AwardRefs;
    var gated := Gate(b, call, now, prune).0;
    Drafts.GatesKeepDrafts(b, call, now, prune, gated);
    if Reserve(gated, Estimate(call)).Some? {
      var (reserved, reservation) := Reserve(gated, Estimate(call)).value;
      OtherPerformsKeepRefs(reserved, call, reservation, fault);
    }
  }

  /** A run adds the draft it awards, and nothing else. */
  lemma RunAddsRef(b: Books, call: Call, now: int, prune: bool, fault: Fault)
    ensures var draft := AwardedBy(b, call, now, prune, fault);
            && Overlaps.AwardRefs(Run(b, call, now, prune, fault).0.ledger) == Overlaps.AwardRefs(b.ledger) + One(draft)
            && (draft.Some? ==> draft.value in b.pending)
  {
    hide Run, Overlaps.AwardRefs, Grew, ResolveDraft;
    if call.CallApprove? {
      ApprovalRunAwards(b, call, now, prune, fault);
      if Awards(Run(b, call, now, prune, fault).1) {
        var draft := ResolveDraft(b, call.target).value;
        GrowsRefs(b.ledger, Run(b, call, now, prune, fault).0.ledger, b.pending[draft], draft);
      }
    } else {
      OtherRunsKeepRefs(b, call, now, prune, fault);
    }
  }

  // ---- Ids are drawn upwards ------------------------------------------------------------------------------------

  lemma ApplyDrawsUpwards(b: Books, call: Call, work: Work, tokens: int, logId: Id, fault: Fault)
    ensures Apply(b, call, work, tokens, logId, fault).0.next >= b.next
  {
    hide HasPlatform, Post;
  }

  lemma PerformDrawsUpwards(b: Books, call: Call, reservation: Option<Id>, fault: Fault)
    ensures var (b', outcome) := Perform(b, call, reservation, fault);
            b'.next >= b.next && (call.CallPropose? && outcome.Completed? ==> b.next <= ProposedDraft(outcome.logId) < b'.next)
  {
    hide Apply, SetReservation, RecordSpend, FinalEffects, Estimate, CostOfLog, ResolveDraft;
    Drafts.BookkeepingKeepsDrafts(b, reservation, Released, 0, 0);
    if Execute(b, call).Some? {
      var (executed, work) := Execute(b, call).value;
      var effects := FinalEffects(executed, call, work);
      var logged := AppendLog(executed, call, Success, effects.tokens, effects.cost);
      ApplyDrawsUpwards(logged, call, work, effects.tokens, executed.next, fault);
      var applied := Apply(logged, call, work, effects.tokens, executed.next, fault).0;
      Drafts.BookkeepingKeepsDrafts(executed, reservation, Released, 0, 0);
      Drafts.BookkeepingKeepsDrafts(applied, reservation, Released, Estimate(call), executed.next);
    }
  }

  /** A proposal's draft is new. */
  lemma RunDrawsUpwards(b: Books, call: Call, now: int, prune: bool, fault: Fault)
    ensures var (b', outcome) := Run(b, call, now, prune, fault);
            b'.next >= b.next && (call.CallPropose? && outcome.Completed? ==> b.next <= ProposedDraft(outcome.logId) < b'.next)
  {
    hide Perform, Gate, Reserve, Estimate, Permitted, IsActive, LogRefusal, ProposedDraft;
    var gated := Gate(b, call, now, prune).0;
    Drafts.GatesKeepDrafts(b, call, now, prune, gated);
    if Reserve(gated, Estimate(call)).Some? {
      var (reserved, reservation) := Reserve(gated, Estimate(call)).value;
      PerformDrawsUpwards(reserved, call, reservation, fault);
    }
  }

  // ---- What happens to the awards of a reference ------------------------------------------------------------------

  predicate IsFor(v: Option<Visit>, draftRef: DraftRef) {
    v.Some? && v.value.m.draftRef == draftRef
  }

  /** The draft a request has proposed. */
  function DraftOf(v: Option<Visit>): Option<Id> {
    if v.None? || v.value.Mapped? then None else Some(ProposedDraft(v.value.proposeLog))
  }

  /** The draft a step proposes. */
  function Proposes(s: Site, o: Move): Option<Id> {
    if Turns(s, o) && s.visits[o.slot].value.Mapped? then DraftOf(Slotted(Advance(s.twin, s.visits[o.slot].value, o.c).1)) else None
  }

  /** The drafts proposed for a reference. */
  function DraftsFor(s: Site, moves: seq<Move>, draftRef: DraftRef): set<Id> {
    if moves == [] then {}
    else
      var first := moves[..|moves| - 1];
      Drafting(Replay(s, first), moves[|moves| - 1], DraftsFor(s, first, draftRef), draftRef)
  }

  function Drafting(s: Site, o: Move, drafts: set<Id>, draftRef: DraftRef): set<Id> {
    if Proposes(s, o).Some? && IsFor(s.visits[o.slot], draftRef) then drafts + {Proposes(s, o).value} else drafts
  }

  function CountIn(refs: seq<Id>, drafts: set<Id>): nat {
    if refs == [] then 0 else CountIn(refs[..|refs| - 1], drafts) + if refs[|refs| - 1] in drafts then 1 else 0
  }

  /** The ledger rows, whoever awarded them, for drafts proposed for the reference. */
  function AwardsFor(s: Site, moves: seq<Move>, draftRef: DraftRef): nat {
    CountIn(Overlaps.AwardRefs(Replay(s, moves).twin.books.ledger), DraftsFor(s, moves, draftRef))
  }

  /** What a move means for a reference: its approval awards and completes, or fails in Step 7; the event is marked approved, or
    * the mark is lost; another run awards one of its drafts; another covenant approves it. */
  datatype Note = NoNote | Pays | PaysUnsettled | Marks | Unmarked | PaidElsewhere | MarkedAbroad

  function TurnNote(t: Twin, v: Visit, c: Conditions): Note {
    if v.Noted? then
      match Advance(t, v, c).1
      case Going(_) => Pays
      case Done(response) => if AwardsResponse(response) then PaysUnsettled else NoNote
    else if v.Granted? then if c.closeLost || v.m.draftRef !in t.events then Unmarked else Marks
    else NoNote
  }

  function NoteOf(s: Site, o: Move, drafts: set<Id>, draftRef: DraftRef): Note {
    match o
    case Arrive(_, _) => NoNote
    case Turn(k, c) => if Turns(s, o) && IsFor(s.visits[k], draftRef) then TurnNote(s.twin, s.visits[k].value, c) else NoNote
    case Elsewhere(op) =>
      if op.RunTool? && AwardedBy(s.twin.books, op.call, op.now, op.prune, op.fault).Some?
         && AwardedBy(s.twin.books, op.call, op.now, op.prune, op.fault).value in drafts
      then PaidElsewhere else NoNote
    case Abroad(r, event) => if r == draftRef && event.status == EventApproved then MarkedAbroad else NoNote
  }

  /** How many moves meant this. */
  function Count(s: Site, moves: seq<Move>, draftRef: DraftRef, note: Note): nat {
    if moves == [] then 0
    else
      var first := moves[..|moves| - 1];
      Count(s, first, draftRef, note)
      + if NoteOf(Replay(s, first), moves[|moves| - 1], DraftsFor(s, first, draftRef), draftRef) == note then 1 else 0
  }

  /** The requests for a reference that have been approved and not yet closed. */
  function InHand(visits: seq<Option<Visit>>, draftRef: DraftRef): nat {
    if visits == [] then 0 else InHand(visits[..|visits| - 1], draftRef) + IsGranted(visits[|visits| - 1], draftRef)
  }

  function IsGranted(v: Option<Visit>, draftRef: DraftRef): nat {
    if IsFor(v, draftRef) && v.value.Granted? then 1 else 0
  }

  lemma {:induction false} InHandUpdates(visits: seq<Option<Visit>>, k: nat, v: Option<Visit>, draftRef: DraftRef)
    requires k < |visits|
    ensures InHand(visits[k := v], draftRef) == InHand(visits, draftRef) - IsGranted(visits[k], draftRef) + IsGranted(v, draftRef)
  {
    var n := |visits| - 1;
    if k < n {
      assert visits[k := v][..n] == visits[..n][k := v];
      InHandUpdates(visits[..n], k, v, draftRef);
    } else {
      assert visits[k := v][..n] == visits[..n];
    }
  }

  lemma {:induction false} NoneInHand(visits: seq<Option<Visit>>, draftRef: DraftRef)
    requires forall k :: 0 <= k < |visits| ==> !IsFor(visits[k], draftRef)
    ensures InHand(visits, draftRef) == 0
  {
    if visits != [] {
      NoneInHand(visits[..|visits| - 1], draftRef);
    }
  }

  lemma CountInAdds(refs: seq<Id>, draft: Option<Id>, drafts: set<Id>)
    ensures CountIn(refs + One(draft), drafts) == CountIn(refs, drafts) + if draft.Some? && draft.value in drafts then 1 else 0
  {
    if draft.Some? {
      assert (refs + [draft.value])[..|refs|] == refs;
    } else {
      assert refs + One(draft) == refs;
    }
  }

  lemma {:induction false} CountInFresh(refs: seq<Id>, drafts: set<Id>, draft: Id)
    requires draft !in refs
    ensures CountIn(refs, drafts + {draft}) == CountIn(refs, drafts)
  {
    if refs != [] {
      CountInFresh(refs[..|refs| - 1], drafts, draft);
    }
  }

  lemma {:induction false} RefsAreOld(b: Books)
    requires Drafts.OnceEach(b)
    ensures forall r :: r in Overlaps.AwardRefs(b.ledger) ==> r < b.next
  {
    RefsAreBelow(b.ledger, b.next);
  }

  lemma {:induction false} RefsAreBelow(ledger: seq<LedgerRow>, next: Id)
    requires forall i :: 0 <= i < |ledger| && ledger[i].source == Passage ==> ledger[i].ref < next
    ensures forall r :: r in Overlaps.AwardRefs(ledger) ==> r < next
  {
    if ledger != [] {
      RefsAreBelow(ledger[..|ledger| - 1], next);
    }
  }

  /** The drafts of a reference are those its requests proposed, and all are older than the next id. */
  ghost predicate Owned(s: Site, drafts: set<Id>, draftRef: DraftRef) {
    && Drafts.OnceEach(s.twin.books) && (forall d :: d in drafts ==> d < s.twin.books.next)
    && forall k :: 0 <= k < |s.visits| ==> OwnsDraft(s.visits[k], s.twin.books.next, drafts, draftRef)
  }

  predicate OwnsDraft(v: Option<Visit>, next: Id, drafts: set<Id>, draftRef: DraftRef) {
    DraftOf(v).Some? ==> DraftOf(v).value < next && (DraftOf(v).value in drafts <==> IsFor(v, draftRef))
  }

  function Flag(b: bool): int {
    if b then 1 else 0
  }

  predicate IsPaying(note: Note) {
    note.Pays? || note.PaysUnsettled? || note.PaidElsewhere?
  }

  /** The draft a request's step pays for. */
  function PaidBy(t: Twin, v: Visit, c: Conditions): Option<Id> {
    if IsPaying(TurnNote(t, v, c)) then DraftOf(Some(v)) else None
  }

  lemma RunKeepsOnce(b: Books, call: Call, now: int, prune: bool, fault: Fault)
    requires Drafts.OnceEach(b)
    ensures Drafts.OnceEach(Run(b, call, now, prune, fault).0) && Run(b, call, now, prune, fault).0.next >= b.next
  {
    Drafts.RunAwardsOnce(b, call, now, prune, fault);
    RunDrawsUpwards(b, call, now, prune, fault);
  }

  lemma AdvanceKeepsOnce(t: Twin, v: Visit, c: Conditions)
    requires Drafts.OnceEach(t.books)
    ensures var t' := Advance(t, v, c).0; Drafts.OnceEach(t'.books) && t'.books.next >= t.books.next
  {
    hide Run, Drafts.OnceEach, Recorded, Closed;
    if v.Mapped? {
      RunKeepsOnce(t.books, ProposalOf(v.m, v.agent), c.propose.now, c.propose.prune, c.propose.fault);
    } else if v.Noted? && c.owner.Some? {
      RunKeepsOnce(t.books, ApprovalOf(v.m, c.owner.value, ProposedDraft(v.proposeLog)), c.approve.now, c.approve.prune, c.approve.fault);
    }
  }

  /** A step of a request pays for its own draft, or for none. */
  lemma AdvancePays(t: Twin, v: Visit, c: Conditions)
    ensures Overlaps.AwardRefs(Advance(t, v, c).0.books.ledger) == Overlaps.AwardRefs(t.books.ledger) + One(PaidBy(t, v, c))
  {
    hide Run, Overlaps.AwardRefs, Recorded, Closed, ProposedDraft;
    if v.Mapped? {
      RunAddsRef(t.books, ProposalOf(v.m, v.agent), c.propose.now, c.propose.prune, c.propose.fault);
    } else if v.Noted? && c.owner.Some? {
      RunAddsRef(t.books, ApprovalOf(v.m, c.owner.value, ProposedDraft(v.proposeLog)), c.approve.now, c.approve.prune, c.approve.fault);
    }
  }

  /** A step of a request keeps its reference and its draft; a proposal's draft is new. */
  lemma AdvanceFollows(t: Twin, v: Visit, c: Conditions)
    ensures var (t', p') := Advance(t, v, c); var v' := Slotted(p');
            && (v'.Some? ==> v'.value.m == v.m)
            && (v'.Some? && v.Mapped? ==> v'.value.Proposed? && t.books.next <= DraftOf(v').value < t'.books.next)
            && (v'.Some? && !v.Mapped? ==> DraftOf(v') == DraftOf(Some(v)) && (v'.value.Granted? <==> v.Noted?))
            && (v'.Some? ==> v' != Some(v))
  {
    hide Run, Recorded, Closed, ProposedDraft;
    if v.Mapped? {
      RunDrawsUpwards(t.books, ProposalOf(v.m, v.agent), c.propose.now, c.propose.prune, c.propose.fault);
    }
  }

  lemma AdvanceGrants(t: Twin, v: Visit, c: Conditions, draftRef: DraftRef)
    ensures var v', note := Slotted(Advance(t, v, c).1), TurnNote(t, v, c);
            v.m.draftRef == draftRef ==>
              IsGranted(v', draftRef) == IsGranted(Some(v), draftRef) + Flag(note.Pays?) - Flag(note.Marks? || note.Unmarked?)
  {
    AdvanceFollows(t, v, c);
    hide Run, Recorded, Closed, ProposedDraft;
  }

  lemma TurnKeepsOwned(s: Site, o: Move, drafts: set<Id>, draftRef: DraftRef)
    requires Owned(s, drafts, draftRef) && Turns(s, o)
    ensures Owned(Step(s, o), Drafting(s, o, drafts, draftRef), draftRef)
  {
    var v, s' := s.visits[o.slot].value, Step(s, o);
    AdvanceKeepsOnce(s.twin, v, o.c);
    AdvanceFollows(s.twin, v, o.c);
    hide Advance, Drafts.OnceEach;
    forall k | 0 <= k < |s'.visits|
      ensures OwnsDraft(s'.visits[k], s'.twin.books.next, Drafting(s, o, drafts, draftRef), draftRef)
    {
      assert OwnsDraft(s.visits[k], s.twin.books.next, drafts, draftRef);
      assert OwnsDraft(s.visits[o.slot], s.twin.books.next, drafts, draftRef);
    }
  }

  lemma TurnCounts(s: Site, o: Move, drafts: set<Id>, draftRef: DraftRef)
    requires Owned(s, drafts, draftRef) && Turns(s, o)
    ensures CountIn(Overlaps.AwardRefs(Step(s, o).twin.books.ledger), Drafting(s, o, drafts, draftRef))
         == CountIn(Overlaps.AwardRefs(s.twin.books.ledger), drafts) + Flag(IsPaying(NoteOf(s, o, drafts, draftRef)))
  {
    var v, refs := s.visits[o.slot].value, Overlaps.AwardRefs(s.twin.books.ledger);
    hide Advance, Drafts.OnceEach, Overlaps.AwardRefs, CountIn;
    AdvancePays(s.twin, v, o.c);
    assert OwnsDraft(s.visits[o.slot], s.twin.books.next, drafts, draftRef);
    if Drafting(s, o, drafts, draftRef) != drafts {
      AdvanceFollows(s.twin, v, o.c);
      RefsAreOld(s.twin.books);
      CountInFresh(refs, drafts, Proposes(s, o).value);
      assert refs + One(None) == refs;
    } else {
      CountInAdds(refs, PaidBy(s.twin, v, o.c), drafts);
    }
  }

  lemma ElsewhereCounts(s: Site, op: History.Op, drafts: set<Id>, draftRef: DraftRef)
    requires Owned(s, drafts, draftRef)
    ensures Owned(Step(s, Elsewhere(op)), drafts, draftRef)
    ensures CountIn(Overlaps.AwardRefs(Step(s, Elsewhere(op)).twin.books.ledger), drafts)
         == CountIn(Overlaps.AwardRefs(s.twin.books.ledger), drafts) + Flag(NoteOf(s, Elsewhere(op), drafts, draftRef).PaidElsewhere?)
  {
    var b := s.twin.books;
    if op.RunTool? {
      RunKeepsOnce(b, op.call, op.now, op.prune, op.fault);
      RunAddsRef(b, op.call, op.now, op.prune, op.fault);
      CountInAdds(Overlaps.AwardRefs(b.ledger), AwardedBy(b, op.call, op.now, op.prune, op.fault), drafts);
    } else {
      Drafts.AdministrationKeepsDrafts(b, op);
      Drafts.SameDraftsKeep(b, History.Step(b, op), Work.Nothing);
    }
    hide Run, Drafts.OnceEach, Overlaps.AwardRefs, CountIn, AwardedBy;
    var s' := Step(s, Elsewhere(op));
    forall k | 0 <= k < |s'.visits| ensures OwnsDraft(s'.visits[k], s'.twin.books.next, drafts, draftRef) {
      assert OwnsDraft(s.visits[k], s.twin.books.next, drafts, draftRef);
    }
  }

  /** Arrivals and writes from abroad touch no books, and no drafts in flight. */
  lemma OthersKeepOwned(s: Site, o: Move, drafts: set<Id>, draftRef: DraftRef)
    requires Owned(s, drafts, draftRef) && !Turns(s, o) && !o.Elsewhere?
    ensures Step(s, o).twin.books == s.twin.books && Drafting(s, o, drafts, draftRef) == drafts
    ensures Owned(Step(s, o), drafts, draftRef) && !IsPaying(NoteOf(s, o, drafts, draftRef))
  {
    hide Drafts.OnceEach;
    var s' := Step(s, o);
    forall k | 0 <= k < |s'.visits| ensures OwnsDraft(s'.visits[k], s'.twin.books.next, drafts, draftRef) {
      assert OwnsDraft(s.visits[k], s.twin.books.next, drafts, draftRef);
    }
  }

  /** The awards of a reference grow by what pays one of its drafts. */
  lemma StepCounts(s: Site, o: Move, drafts: set<Id>, draftRef: DraftRef)
    requires Owned(s, drafts, draftRef)
    ensures Owned(Step(s, o), Drafting(s, o, drafts, draftRef), draftRef)
    ensures CountIn(Overlaps.AwardRefs(Step(s, o).twin.books.ledger), Drafting(s, o, drafts, draftRef))
         == CountIn(Overlaps.AwardRefs(s.twin.books.ledger), drafts) + Flag(IsPaying(NoteOf(s, o, drafts, draftRef)))
  {
    hide Owned, Step, NoteOf, Drafting, Overlaps.AwardRefs, CountIn;
    if Turns(s, o) {
      TurnKeepsOwned(s, o, drafts, draftRef);
      TurnCounts(s, o, drafts, draftRef);
    } else if o.Elsewhere? {
      ElsewhereCounts(s, o.op, drafts, draftRef);
      ElsewhereDraftsNothing(s, o, drafts, draftRef);
    } else {
      OthersKeepOwned(s, o, drafts, draftRef);
    }
  }

  lemma ElsewhereDraftsNothing(s: Site, o: Move, drafts: set<Id>, draftRef: DraftRef)
    requires o.Elsewhere?
    ensures Drafting(s, o, drafts, draftRef) == drafts
    ensures IsPaying(NoteOf(s, o, drafts, draftRef)) <==> NoteOf(s, o, drafts, draftRef).PaidElsewhere?
  {
    hide AwardedBy;
  }

  /** The requests in hand grow by the completed approvals and shrink by the closings. */
  lemma StepHolds(s: Site, o: Move, drafts: set<Id>, draftRef: DraftRef)
    ensures InHand(Step(s, o).visits, draftRef)
         == InHand(s.visits, draftRef) + Flag(NoteOf(s, o, drafts, draftRef).Pays?)
            - Flag(NoteOf(s, o, drafts, draftRef).Marks? || NoteOf(s, o, drafts, draftRef).Unmarked?)
  {
    hide InHand, AwardedBy, Advance, TurnNote;
    if Turns(s, o) {
      AdvanceGrants(s.twin, s.visits[o.slot].value, o.c, draftRef);
      AdvanceFollows(s.twin, s.visits[o.slot].value, o.c);
      InHandUpdates(s.visits, o.slot, Slotted(Advance(s.twin, s.visits[o.slot].value, o.c).1), draftRef);
    } else if Enters(s, o) {
      InHandUpdates(s.visits, o.slot, Slotted(Arriving(s.twin, o.m)), draftRef);
    }
  }

  lemma {:induction false} StaysOwned(s: Site, moves: seq<Move>, draftRef: DraftRef)
    requires AtRest(s) && Drafts.OnceEach(s.twin.books)
    ensures Owned(Replay(s, moves), DraftsFor(s, moves, draftRef), draftRef)
  {
    if moves != [] {
      hide Step, Drafting, Owned;
      StaysOwned(s, moves[..|moves| - 1], draftRef);
      StepCounts(Replay(s, moves[..|moves| - 1]), moves[|moves| - 1], DraftsFor(s, moves[..|moves| - 1], draftRef), draftRef);
    }
  }

  /** Every award was paid by a request of the reference or by another run. */
  lemma {:induction false} AwardsArePaid(s: Site, moves: seq<Move>, draftRef: DraftRef)
    requires AtRest(s) && Drafts.OnceEach(s.twin.books)
    ensures AwardsFor(s, moves, draftRef)
         == Count(s, moves, draftRef, Pays) + Count(s, moves, draftRef, PaysUnsettled) + Count(s, moves, draftRef, PaidElsewhere)
    ensures InHand(Replay(s, moves).visits, draftRef)
         == Count(s, moves, draftRef, Pays) - Count(s, moves, draftRef, Marks) - Count(s, moves, draftRef, Unmarked)
  {
    if moves == [] {
      NothingDrafted(Overlaps.AwardRefs(s.twin.books.ledger));
      NoneInHand(s.visits, draftRef);
    } else {
      hide Step, Drafting, Owned, NoteOf, CountIn, InHand, Overlaps.AwardRefs;
      var first, o := moves[..|moves| - 1], moves[|moves| - 1];
      AwardsArePaid(s, first, draftRef);
      StaysOwned(s, first, draftRef);
      StepCounts(Replay(s, first), o, DraftsFor(s, first, draftRef), draftRef);
      StepHolds(Replay(s, first), o, DraftsFor(s, first, draftRef), draftRef);
    }
  }

  lemma {:induction false} NothingDrafted(refs: seq<Id>)
    ensures CountIn(refs, {}) == 0
  {
    if refs != [] {
      NothingDrafted(refs[..|refs| - 1]);
    }
  }

  /** The marks lost: approvals that failed in Step 7, and closings that marked nothing. */
  function Losses(s: Site, moves: seq<Move>, draftRef: DraftRef): nat {
    Count(s, moves, draftRef, PaysUnsettled) + Count(s, moves, draftRef, Unmarked)
  }

  /** Main result, awards of a reference: over every interleaving of requests, the covenant's other operations and other
    * covenants, its awards are exactly the marks made, the marks lost, its leftover drafts that other runs awarded, and the
    * approvals not yet closed. */
  lemma AwardsAreMarksLossesAndLeftovers(s: Site, moves: seq<Move>, draftRef: DraftRef)
    requires AtRest(s) && Drafts.OnceEach(s.twin.books)
    ensures AwardsFor(s, moves, draftRef)
         == Count(s, moves, draftRef, Marks) + Losses(s, moves, draftRef) + Count(s, moves, draftRef, PaidElsewhere)
            + InHand(Replay(s, moves).visits, draftRef)
  {
    AwardsArePaid(s, moves, draftRef);
  }

  // ---- Requests that do not overlap -----------------------------------------------------------------------------

  ghost predicate Vacant(s: Site, draftRef: DraftRef) {
    forall k :: 0 <= k < |s.visits| ==> !IsFor(s.visits[k], draftRef)
  }

  /** A request passes the check while another for its reference has passed it and is not done; or another covenant writes the
    * event of a reference that is approved here or has a request in flight. */
  ghost predicate Overlapping(s: Site, o: Move, draftRef: DraftRef) {
    || (Enters(s, o) && o.m.draftRef == draftRef && !Vacant(s, draftRef))
    || (o.Abroad? && o.draftRef == draftRef && (!Vacant(s, draftRef) || IsApproved(s.twin.events, draftRef)))
  }

  ghost predicate NeverOverlaps(s: Site, moves: seq<Move>, draftRef: DraftRef) {
    forall k :: 0 <= k < |moves| ==> !Overlapping(Replay(s, moves[..k]), moves[k], draftRef)
  }

  /** A reference has at most one request in flight, and none once it is approved. */
  ghost predicate Apart(s: Site, draftRef: DraftRef) {
    && (forall i, j :: 0 <= i < j < |s.visits| && IsFor(s.visits[i], draftRef) ==> !IsFor(s.visits[j], draftRef))
    && (IsApproved(s.twin.events, draftRef) ==> Vacant(s, draftRef))
  }

  /** What a request's step does to the marks. */
  lemma AdvanceMarks(t: Twin, v: Visit, c: Conditions, draftRef: DraftRef)
    ensures var t' := Advance(t, v, c).0;
            IsApproved(t'.events, draftRef) <==>
              if v.m.draftRef != draftRef then IsApproved(t.events, draftRef)
              else (IsApproved(t.events, draftRef) && !(v.Proposed? && !c.recordLost)) || TurnNote(t, v, c).Marks?
  {
    hide Run, ProposedDraft;
  }

  lemma TurnStaysApart(s: Site, o: Move, drafts: set<Id>, draftRef: DraftRef)
    requires Apart(s, draftRef) && Turns(s, o)
    ensures Apart(Step(s, o), draftRef)
    ensures Flag(IsApproved(Step(s, o).twin.events, draftRef))
         == Flag(IsApproved(s.twin.events, draftRef)) + Flag(NoteOf(s, o, drafts, draftRef).Marks?)
  {
    var v, s' := s.visits[o.slot].value, Step(s, o);
    AdvanceMarks(s.twin, v, o.c, draftRef);
    AdvanceFollows(s.twin, v, o.c);
    TurnEnds(s.twin, v, o.c);
    hide Advance, IsApproved, TurnNote;
    forall k | 0 <= k < |s.visits| && IsFor(s'.visits[k], draftRef) ensures IsFor(s.visits[k], draftRef) {}
  }

  /** A request that marks its reference is done. */
  lemma TurnEnds(t: Twin, v: Visit, c: Conditions)
    ensures TurnNote(t, v, c).Marks? ==> Advance(t, v, c).1.Done?
  {
    hide Run, Closed;
  }

  lemma OthersStayApart(s: Site, o: Move, drafts: set<Id>, draftRef: DraftRef)
    requires Apart(s, draftRef) && !Turns(s, o) && !Overlapping(s, o, draftRef)
    ensures Apart(Step(s, o), draftRef)
    ensures Flag(IsApproved(Step(s, o).twin.events, draftRef))
         == Flag(IsApproved(s.twin.events, draftRef)) + Flag(NoteOf(s, o, drafts, draftRef).MarkedAbroad?)
    ensures !NoteOf(s, o, drafts, draftRef).Marks?
  {
    hide AwardedBy;
    var s' := Step(s, o);
    forall k | 0 <= k < |s.visits| && IsFor(s'.visits[k], draftRef) && !IsFor(s.visits[k], draftRef)
      ensures Enters(s, o) && o.slot == k && o.m.draftRef == draftRef && !IsApproved(s.twin.events, draftRef)
    {}
  }

  lemma {:induction false} ApartWhileNotOverlapping(s: Site, moves: seq<Move>, draftRef: DraftRef)
    requires Apart(s, draftRef) && NeverOverlaps(s, moves, draftRef)
    ensures Apart(Replay(s, moves), draftRef)
    ensures Flag(IsApproved(Replay(s, moves).twin.events, draftRef))
         == Flag(IsApproved(s.twin.events, draftRef)) + Count(s, moves, draftRef, Marks) + Count(s, moves, draftRef, MarkedAbroad)
  {
    if moves != [] {
      hide Step, Apart, Overlapping, NoteOf, IsApproved;
      var first, o := moves[..|moves| - 1], moves[|moves| - 1];
      assert forall k :: 0 <= k < |first| ==> moves[..k] == first[..k];
      ApartWhileNotOverlapping(s, first, draftRef);
      var before, drafts := Replay(s, first), DraftsFor(s, first, draftRef);
      assert !Overlapping(Replay(s, moves[..|moves| - 1]), moves[|moves| - 1], draftRef);
      if Turns(before, o) {
        TurnStaysApart(before, o, drafts, draftRef);
        TurnsMarkHere(before, o, drafts, draftRef);
      } else {
        OthersStayApart(before, o, drafts, draftRef);
      }
    }
  }

  lemma TurnsMarkHere(s: Site, o: Move, drafts: set<Id>, draftRef: DraftRef)
    requires Turns(s, o)
    ensures !NoteOf(s, o, drafts, draftRef).MarkedAbroad?
  {
    hide Advance;
  }

  lemma RestIsApart(s: Site, draftRef: DraftRef)
    requires AtRest(s)
    ensures Apart(s, draftRef) && Vacant(s, draftRef)
  {
  }

  /** While no two of its requests overlap, a reference's awards are its lost marks, its leftover drafts that other runs awarded,
    * an approval not yet closed, and one if it is approved, unless that was abroad. */
  lemma AwardsWhenApart(s: Site, moves: seq<Move>, draftRef: DraftRef)
    requires AtRest(s) && Drafts.OnceEach(s.twin.books) && !IsApproved(s.twin.events, draftRef) && NeverOverlaps(s, moves, draftRef)
    ensures AwardsFor(s, moves, draftRef) + Count(s, moves, draftRef, MarkedAbroad)
         == Losses(s, moves, draftRef) + Count(s, moves, draftRef, PaidElsewhere)
            + InHand(Replay(s, moves).visits, draftRef) + Flag(IsApproved(Replay(s, moves).twin.events, draftRef))
  {
    hide Replay, Count, AwardsFor, NeverOverlaps, Apart, IsApproved;
    RestIsApart(s, draftRef);
    AwardsAreMarksLossesAndLeftovers(s, moves, draftRef);
    ApartWhileNotOverlapping(s, moves, draftRef);
  }

  /** Main result, once a merge: a reference whose requests never overlapped and that ended up approved here was awarded exactly
    * once if and only if no mark was lost and no other run awarded a draft that one of its requests had left behind. One that
    * another covenant approved has only been awarded by such accidents. */
  lemma OneAwardIff(s: Site, moves: seq<Move>, draftRef: DraftRef)
    requires AtRest(s) && Drafts.OnceEach(s.twin.books) && !IsApproved(s.twin.events, draftRef) && NeverOverlaps(s, moves, draftRef)
    requires IsApproved(Replay(s, moves).twin.events, draftRef)
    ensures Count(s, moves, draftRef, MarkedAbroad) == 0 ==>
              && AwardsFor(s, moves, draftRef) >= 1
              && (AwardsFor(s, moves, draftRef) == 1
                  <==> Losses(s, moves, draftRef) == 0 && Count(s, moves, draftRef, PaidElsewhere) == 0)
    ensures Count(s, moves, draftRef, MarkedAbroad) > 0 ==>
              AwardsFor(s, moves, draftRef) == Losses(s, moves, draftRef) + Count(s, moves, draftRef, PaidElsewhere)
  {
    AwardsWhenApart(s, moves, draftRef);
    RestIsApart(s, draftRef);
    ApartWhileNotOverlapping(s, moves, draftRef);
    NoneInHand(Replay(s, moves).visits, draftRef);
    hide Replay, Count, AwardsFor, Losses;
  }

  /** While no two of its requests overlap, an approved reference stays approved. */
  lemma {:induction false} StaysApproved(s: Site, moves: seq<Move>, draftRef: DraftRef, k: nat)
    requires Apart(s, draftRef) && NeverOverlaps(s, moves, draftRef) && k <= |moves|
    requires IsApproved(Replay(s, moves[..k]).twin.events, draftRef)
    ensures IsApproved(Replay(s, moves).twin.events, draftRef)
  {
    if k == |moves| {
      assert moves[..k] == moves;
    } else {
      hide Step, Apart, Overlapping, NoteOf, IsApproved;
      var first, o := moves[..|moves| - 1], moves[|moves| - 1];
      assert forall i :: 0 <= i < |first| ==> moves[..i] == first[..i];
      assert first[..k] == moves[..k];
      StaysApproved(s, first, draftRef, k);
      ApartWhileNotOverlapping(s, first, draftRef);
      var before := Replay(s, first);
      assert !Overlapping(Replay(s, moves[..|moves| - 1]), moves[|moves| - 1], draftRef);
      if Turns(before, o) {
        TurnStaysApart(before, o, {}, draftRef);
      } else {
        OthersStayApart(before, o, {}, draftRef);
      }
    }
  }
}
