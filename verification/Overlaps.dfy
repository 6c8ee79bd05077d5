/** Drafts and balances when runs interleave: what the separate reads and writes of ClaimPending and ConfirmContribution
  * (internal/tokens/tokens.go) let happen. */
module Overlaps {
  import opened Common
  import opened Books
  import opened Engine
  import opened Interleaving
  import Drafts
  import RateLimit

  // ---- Drafts in hand -------------------------------------------------------------------------------

  /** The drafts of the awards, in ledger order. */
  function AwardRefs(ledger: seq<LedgerRow>): seq<Id> {
    if ledger == [] then []
    else
      var last := ledger[|ledger| - 1];
      AwardRefs(ledger[..|ledger| - 1]) + if last.source == Passage then [last.ref] else []
  }

  lemma {:induction false} ReversalKeepsRefs(ledger: seq<LedgerRow>, target: Id)
    ensures AwardRefs(Reverse(ledger, target)) == AwardRefs(ledger)
  {
    if ledger != [] {
      ReversalKeepsRefs(ledger[..|ledger| - 1], target);
      assert Reverse(ledger, target)[..|ledger| - 1] == Reverse(ledger[..|ledger| - 1], target);
    }
  }

  lemma RowAddsRef(ledger: seq<LedgerRow>, row: LedgerRow)
    ensures AwardRefs(ledger + [row]) == AwardRefs(ledger) + if row.source == Passage then [row.ref] else []
  {
    assert (ledger + [row])[..|ledger|] == ledger;
  }

  /** The draft of a piece of work. */
  function DraftOf(work: Work): Option<Id> {
    match work
    case Drafted(d) => Some(d)
    case Claimed(d, _, _, _) => Some(d)
    case _ => None
  }

  /** The draft a run holds: drawn and not yet pending, or read as pending and not yet awarded. */
  function Holding(slot: Slot): Option<Id> {
    if slot.None? then None
    else
      match slot.value.stage
      case Claiming(_, d, _) => Some(d)
      case Worked(_, work, _) => DraftOf(work)
      case Logged(_, work, _, _) => DraftOf(work)
      case Summed(_, d, _, _, _, _) => Some(d)
      case _ => None
  }

  predicate IsClaiming(slot: Slot) {
    slot.Some? && slot.value.stage.Claiming?
  }

  /** What a step does with drafts. */
  datatype Effect =
    | Keeps
    | Drops
    | Draws(draft: Id)
    | Reads(draft: Id)
    | Deletes(draft: Id)
    | Pends(draft: Id, agent: Id)
    | Pays(draft: Id)

  function EffectOf(b: Books, slot: Slot, action: Action): Effect {
    match slot
    case None => Keeps
    case Some(Flight(call, s)) =>
      if s.Authorized? && action.Work? && Holding(Advance(b, slot, action).1).Some? then Draws(b.next)
      else if s.Resolved? && action.Read? && s.draft in b.pending then Reads(s.draft)
      else if s.Claiming? && action.Claim? then if action.fails then Drops else Deletes(s.draft)
      else if s.Worked? && action.Log? && action.fails then Drops
      else if s.Logged? && action.Act? && action.fails then Drops
      else if s.Logged? && action.Act? && s.work.Drafted? then Pends(s.work.draft, call.agent)
      else if s.Summed? && action.Finish? then if action.fails then Drops else Pays(s.draft)
      else Keeps
  }

  ghost predicate SameAwards(b: Books, b': Books) {
    b'.pending == b.pending && AwardRefs(b'.ledger) == AwardRefs(b.ledger) && b'.next >= b.next
  }

  ghost predicate Does(b: Books, slot: Slot, b': Books, slot': Slot, e: Effect) {
    match e
    case Keeps => SameAwards(b, b') && Holding(slot') == Holding(slot) && (IsClaiming(slot') <==> IsClaiming(slot))
    case Drops => SameAwards(b, b') && Holding(slot') == None
    case Draws(d) =>
      SameAwards(b, b') && d == b.next < b'.next && Holding(slot) == None && Holding(slot') == Some(d) && !IsClaiming(slot')
    case Reads(d) =>
      SameAwards(b, b') && d in b.pending && Holding(slot) == None && Holding(slot') == Some(d) && IsClaiming(slot')
    case Deletes(d) =>
      && b'.pending == b.pending - {d} && AwardRefs(b'.ledger) == AwardRefs(b.ledger) && b'.next >= b.next
      && Holding(slot) == Some(d) && IsClaiming(slot) && !IsClaiming(slot') && (Holding(slot') == Some(d) || Holding(slot') == None)
    case Pends(d, agent) =>
      && b'.pending == b.pending[d := agent] && AwardRefs(b'.ledger) == AwardRefs(b.ledger) && b'.next >= b.next
      && Holding(slot) == Some(d) && !IsClaiming(slot) && Holding(slot') == None
    case Pays(d) =>
      && b'.pending == b.pending && AwardRefs(b'.ledger) == AwardRefs(b.ledger) + [d] && b'.next >= b.next
      && Holding(slot) == Some(d) && !IsClaiming(slot) && Holding(slot') == None
  }

  lemma RefusingKeepsAwards(b: Books, call: Call, reservation: Option<Id>)
    ensures SameAwards(b, Refuse(b, call, reservation).0) && Refuse(b, call, reservation).1 == None
    ensures SameAwards(b, Abort(b, reservation).0) && Abort(b, reservation).1 == None
    ensures SameAwards(b, LogRefusal(b, call))
  {
  }

  lemma SameDraftsSameAwards(b: Books, b': Books)
    requires Drafts.SameDrafts(b, b')
    ensures SameAwards(b, b')
  {
  }

  lemma EnteringKeepsAwards(b: Books, call: Call, now: int, prune: bool)
    ensures SameAwards(b, Entering(b, call, now, prune).0)
  {
    hide Gate, LogRefusal, Permitted, IsActive, AwardRefs;
    var gated := Gate(b, call, now, prune).0;
    Drafts.GatesKeepDrafts(b, call, now, prune, gated);
  }

  lemma AuthorizingKeepsAwards(b: Books, call: Call)
    ensures SameAwards(b, Authorizing(b, call).0)
  {
    hide Reserve, LogRefusal, Estimate, AwardRefs;
    RefusingKeepsAwards(b, call, None);
    if Reserve(b, Estimate(call)).Some? {
      ReservingKeepsAwards(b, Estimate(call));
    }
  }

  lemma ReservingKeepsAwards(b: Books, estimate: int)
    requires Reserve(b, estimate).Some?
    ensures SameAwards(b, Reserve(b, estimate).value.0)
  {
    hide AwardRefs;
  }

  lemma PricingKeepsAwards(b: Books, call: Call, work: Work, reservation: Option<Id>)
    ensures var next := Pricing(b, call, work, reservation);
            SameAwards(b, next.0) && (next.1.Some? ==> next.1.value.stage.Worked? && next.1.value.stage.work == work)
  {
    hide FinalEffects, Refuse, AwardRefs;
    RefusingKeepsAwards(b, call, reservation);
  }

  /** Only a proposal draws a draft in Step 3, and only an approval deletes one; the latter is a step of its own here. */
  lemma ExecutingKeepsAwards(b: Books, call: Call)
    requires Execute(b, call).Some? && !call.CallApprove?
    ensures var (b', work) := Execute(b, call).value;
            && b'.pending == b.pending && b'.ledger == b.ledger && b'.next >= b.next
            && (DraftOf(work).Some? ==> DraftOf(work) == Some(b.next) && b'.next > b.next)
  {
    hide CostOfLog;
  }

  lemma WorkingDoes(b: Books, call: Call, reservation: Option<Id>)
    ensures var next := Working(b, call, reservation);
            && SameAwards(b, next.0) && !IsClaiming(next.1)
            && (Holding(next.1).Some? ==> Holding(next.1) == Some(b.next) && next.0.next > b.next)
  {
    RefusingKeepsAwards(b, call, reservation);
    if !call.CallApprove? && Execute(b, call).Some? {
      ExecutingKeepsAwards(b, call);
      PricingKeepsAwards(Execute(b, call).value.0, call, Execute(b, call).value.1, reservation);
    }
    hide Execute, Pricing, Refuse, AwardRefs, ResolveDraft;
  }

  lemma ClaimingDoes(b: Books, call: Call, s: Stage, fails: bool)
    requires s.Claiming? && call.CallApprove?
    ensures var next := Deleting(b, call, s, fails);
            && (fails ==> SameAwards(b, next.0) && next.1 == None)
            && (!fails ==> next.0.pending == b.pending - {s.draft} && AwardRefs(next.0.ledger) == AwardRefs(b.ledger)
                           && next.0.next >= b.next && !IsClaiming(next.1)
                           && (Holding(next.1) == Some(s.draft) || Holding(next.1) == None))
  {
    RefusingKeepsAwards(b, call, s.reservation);
    PricingKeepsAwards(b.(pending := b.pending - {s.draft}), call, ClaimedBy(call, s.draft, s.proposer), s.reservation);
    hide Pricing, Refuse, AwardRefs;
  }

  lemma ReversingDoes(b: Books, call: Call, s: Stage)
    requires s.Logged? && s.work.ToReverse?
    ensures var next := Acting(b, call, s, false);
            AwardRefs(next.0.ledger) == AwardRefs(b.ledger) && next.0.next == b.next && next.0.pending == b.pending
            && Holding(next.1) == None && !IsClaiming(next.1)
  {
    ReversalKeepsRefs(b.ledger, s.work.logId);
    hide AwardRefs, Reverse;
  }

  lemma ActingOtherwise(b: Books, call: Call, s: Stage, fails: bool)
    requires s.Logged? && (fails || !s.work.ToReverse?)
    ensures var next := Acting(b, call, s, fails);
            && next.0.ledger == b.ledger && next.0.next >= b.next && !IsClaiming(next.1)
            && (fails ==> next.0.pending == b.pending && next.1 == None)
            && (!fails ==> next.0.pending == if s.work.Drafted? then b.pending[s.work.draft := call.agent] else b.pending)
            && (!fails ==> Holding(next.1) == if s.work.Claimed? then Some(s.work.draft) else None)
  {
    hide Balance, Resolvable;
  }

  lemma ActingDoes(b: Books, call: Call, s: Stage, fails: bool)
    requires s.Logged?
    ensures var next := Acting(b, call, s, fails);
            && AwardRefs(next.0.ledger) == AwardRefs(b.ledger) && next.0.next >= b.next && !IsClaiming(next.1)
            && (fails ==> next.0.pending == b.pending && next.1 == None)
            && (!fails ==> next.0.pending == if s.work.Drafted? then b.pending[s.work.draft := call.agent] else b.pending)
            && (!fails ==> Holding(next.1) == if s.work.Claimed? then Some(s.work.draft) else None)
  {
    hide Acting, AwardRefs;
    if s.work.ToReverse? && !fails {
      ReversingDoes(b, call, s);
    } else {
      ActingOtherwise(b, call, s, fails);
    }
  }

  lemma ResolvingKeepsAwards(b: Books, work: Work, logId: Id)
    requires Resolve(b, work, logId).Some?
    ensures SameAwards(b, Resolve(b, work, logId).value)
  {
    var b' := Resolve(b, work, logId).value;
    if b'.ledger != b.ledger {
      assert b'.ledger[..|b.ledger|] == b.ledger && b'.ledger == b.ledger + [b'.ledger[|b.ledger|]];
      RowAddsRef(b.ledger, b'.ledger[|b.ledger|]);
    }
    hide HasPlatform, AwardRefs;
  }

  lemma PayingDoes(b: Books, call: Call, s: Stage)
    requires s.Summed?
    ensures AwardRefs(Finishing(b, call, s, false).0.ledger) == AwardRefs(b.ledger) + [s.draft]
  {
    RowAddsRef(b.ledger, AwardRow(s));
    hide AwardRefs;
  }

  lemma FinishingOtherwise(b: Books, call: Call, s: Stage, fails: bool)
    requires (s.Summed? && fails) || s.Checked? || s.Flipped?
    ensures SameAwards(b, Finishing(b, call, s, fails).0)
  {
    RefusingKeepsAwards(b, call, s.reservation);
    if s.Checked? && Resolve(b, s.work, s.logId).Some? {
      ResolvingKeepsAwards(b, s.work, s.logId);
    }
    hide Abort, AwardRefs, Resolve;
  }

  lemma FinishingDoes(b: Books, call: Call, s: Stage, fails: bool)
    requires s.Summed? || s.Checked? || s.Flipped?
    ensures var next := Finishing(b, call, s, fails);
            && next.0.pending == b.pending && next.0.next >= b.next && Holding(next.1) == None && !IsClaiming(next.1)
            && AwardRefs(next.0.ledger) == AwardRefs(b.ledger) + if s.Summed? && !fails then [s.draft] else []
  {
    hide AwardRefs, Resolve, SetReservation;
    if s.Summed? && !fails {
      PayingDoes(b, call, s);
    } else {
      FinishingOtherwise(b, call, s, fails);
    }
  }

  lemma SettlingKeepsAwards(b: Books, call: Call, s: Stage, fails: bool)
    requires s.Applied?
    ensures SameAwards(b, Settling(b, call, s, fails).0)
  {
    hide Estimate, AwardRefs;
  }

  /** Only an approval reads a draft to claim it. */
  predicate Sane(slot: Slot) {
    slot.Some? && (slot.value.stage.Resolved? || slot.value.stage.Claiming?) ==> slot.value.call.CallApprove?
  }

  lemma AdvanceStaysSane(b: Books, slot: Slot, action: Action)
    requires Sane(slot)
    ensures Sane(Advance(b, slot, action).1)
  {
    hide Estimate, Execute, Gate, Permitted, Reserve, FinalEffects, LogRefusal, SetReservation, AppendLog, RecordSpend, Post,
         Balance, Resolve, Resolvable, ResolveDraft;
  }

  lemma AdvanceDoes(b: Books, slot: Slot, action: Action)
    requires Sane(slot)
    ensures Does(b, slot, Advance(b, slot, action).0, Advance(b, slot, action).1, EffectOf(b, slot, action))
  {
    hide AwardRefs, Entering, Authorizing, Working, Deleting, Acting, Finishing, Settling, Refuse, Abort;
    match slot
    case None =>
      if action.Enter? {
        EnteringKeepsAwards(b, action.call, action.now, action.prune);
        EnteringHoldsNothing(b, action.call, action.now, action.prune);
      }
    case Some(Flight(call, s)) =>
      if !s.Entered? { RefusingKeepsAwards(b, call, s.reservation); }
      if s.Entered? && action.Authorize? {
        AuthorizingKeepsAwards(b, call);
        AuthorizingHoldsNothing(b, call);
      }
      if s.Authorized? { WorkingDoes(b, call, s.reservation); }
      if s.Claiming? && action.Claim? { ClaimingDoes(b, call, s, action.fails); }
      if s.Worked? && action.Log? { LoggingKeepsAwards(b, call, s, action.fails); }
      if s.Logged? && action.Act? { ActingDoes(b, call, s, action.fails); }
      if (s.Summed? || s.Checked? || s.Flipped?) && action.Finish? { FinishingDoes(b, call, s, action.fails); }
      if s.Applied? && action.Settle? {
        SettlingKeepsAwards(b, call, s, action.fails);
        SettlingEmpties(b, call, s, action.fails);
      }
  }

  lemma EnteringHoldsNothing(b: Books, call: Call, now: int, prune: bool)
    ensures var slot := Entering(b, call, now, prune).1; Holding(slot) == None && !IsClaiming(slot)
  {
    hide RateLimit.CheckAndIncrement, Permitted, IsActive;
  }

  lemma AuthorizingHoldsNothing(b: Books, call: Call)
    ensures var slot := Authorizing(b, call).1; Holding(slot) == None && !IsClaiming(slot)
  {
    hide Estimate;
  }

  lemma SettlingEmpties(b: Books, call: Call, s: Stage, fails: bool)
    requires s.Applied?
    ensures Settling(b, call, s, fails).1 == None
  {
    hide Estimate, RecordSpend;
  }

  lemma LoggingKeepsAwards(b: Books, call: Call, s: Stage, fails: bool)
    requires s.Worked?
    ensures var next := Logging(b, call, s, fails);
            && SameAwards(b, next.0) && !IsClaiming(next.1)
            && (if fails then next.1 == None else Holding(next.1) == DraftOf(s.work))
  {
    RefusingKeepsAwards(b, call, s.reservation);
    hide Abort, AwardRefs;
  }

  // ---- At most once ---------------------------------------------------------------------------------

  /** Each draft is awarded once, pending, or in one run's hands; a held draft is pending exactly while it is being claimed. */
  ghost predicate Once(f: Floor) {
    && RefsDistinct(f.books)
    && (forall i :: 0 <= i < |f.slots| ==> InHand(f.books, f.slots[i]))
    && (forall i, j :: 0 <= i < j < |f.slots| && Holding(f.slots[i]).Some? ==> Holding(f.slots[i]) != Holding(f.slots[j]))
  }

  ghost predicate InHand(b: Books, slot: Slot) {
    && Sane(slot)
    && (Holding(slot).Some? ==>
          var d := Holding(slot).value;
          d < b.next && d !in AwardRefs(b.ledger) && (d in b.pending <==> IsClaiming(slot)))
  }

  /** A run reads a pending draft that another has read and not yet deleted. */
  ghost predicate OverlappingRead(f: Floor, m: Move) {
    && m.Turn? && m.slot < |f.slots|
    && var e := EffectOf(f.books, f.slots[m.slot], m.action);
       e.Reads? && exists j :: 0 <= j < |f.slots| && IsClaiming(f.slots[j]) && Holding(f.slots[j]) == Some(e.draft)
  }

  /** A held draft stays in hand whatever another run does with a draft of its own. */
  lemma OthersStayInHand(b: Books, slot: Slot, b': Books, slot': Slot, e: Effect, other: Slot)
    requires Does(b, slot, b', slot', e) && InHand(b, slot) && InHand(b, other)
    requires Holding(other).Some? ==> Holding(other) != Holding(slot)
    ensures InHand(b', other)
  {
    hide AwardRefs, Holding;
  }

  lemma SelfStaysInHand(b: Books, slot: Slot, b': Books, slot': Slot, e: Effect)
    requires Does(b, slot, b', slot', e) && InHand(b, slot) && Sane(slot')
    requires RefsDistinct(b)
    ensures InHand(b', slot')
  {
    hide AwardRefs, Holding, Sane;
  }

  lemma RefsStayDistinct(b: Books, slot: Slot, b': Books, slot': Slot, e: Effect)
    requires Does(b, slot, b', slot', e) && InHand(b, slot)
    requires RefsDistinct(b)
    ensures RefsDistinct(b')
  {
    hide AwardRefs, Holding, Sane, IsClaiming;
    var refs, refs' := AwardRefs(b.ledger), AwardRefs(b'.ledger);
    assert forall i :: 0 <= i < |refs| ==> refs[i] in refs;
    if e.Pays? {
      assert refs' == refs + [e.draft];
    }
  }

  /** Each draft is awarded at most once, and not while it is pending. */
  ghost predicate RefsDistinct(b: Books) {
    var refs := AwardRefs(b.ledger);
    && (forall i, j :: 0 <= i < j < |refs| ==> refs[i] != refs[j])
    && (forall r :: r in refs ==> r < b.next && r !in b.pending)
    && (forall d :: d in b.pending ==> d < b.next)
  }

  lemma HoldingsStayApart(f: Floor, k: nat, b': Books, slots': seq<Slot>, e: Effect)
    requires Once(f) && k < |f.slots| == |slots'| && slots' == f.slots[k := slots'[k]]
    requires Does(f.books, f.slots[k], b', slots'[k], e)
    requires e.Reads? ==> forall j :: 0 <= j < |f.slots| && IsClaiming(f.slots[j]) ==> Holding(f.slots[j]) != Some(e.draft)
    ensures forall i, j :: 0 <= i < j < |slots'| && Holding(slots'[i]).Some? ==> Holding(slots'[i]) != Holding(slots'[j])
  {
    forall i | 0 <= i < |f.slots| ensures InHand(f.books, f.slots[i]) {}
    hide AwardRefs, Holding, Sane, IsClaiming;
    forall i, j | 0 <= i < j < |slots'| && Holding(slots'[i]).Some? ensures Holding(slots'[i]) != Holding(slots'[j]) {
      assert InHand(f.books, f.slots[i]) && InHand(f.books, f.slots[j]);
    }
  }

  lemma AdvancedDoes(b: Books, slot: Slot, action: Action, lost: bool)
    requires Sane(slot)
    ensures Does(b, slot, Advanced(b, slot, action, lost).0, Advanced(b, slot, action, lost).1, EffectOf(b, slot, action))
    ensures Sane(Advanced(b, slot, action, lost).1)
  {
    AdvanceDoes(b, slot, action);
    AdvanceStaysSane(b, slot, action);
    AdvancedIsAdvance(b, slot, action, lost);
    hide Advance, Advanced, EffectOf, AwardRefs, Holding, IsClaiming, Sane;
  }

  lemma TurnKeepsOnce(f: Floor, k: nat, action: Action, lost: bool)
    requires Once(f) && !OverlappingRead(f, Turn(k, action, lost))
    ensures Once(Step(f, Turn(k, action, lost)))
  {
    if k < |f.slots| {
      var slot, f' := f.slots[k], Step(f, Turn(k, action, lost));
      var e := EffectOf(f.books, slot, action);
      assert InHand(f.books, slot);
      AdvancedDoes(f.books, slot, action, lost);
      hide Advanced, EffectOf, Does, AwardRefs, Holding, IsClaiming, Sane;
      SelfStaysInHand(f.books, slot, f'.books, f'.slots[k], e);
      RefsStayDistinct(f.books, slot, f'.books, f'.slots[k], e);
      HoldingsStayApart(f, k, f'.books, f'.slots, e);
      forall i | 0 <= i < |f'.slots| ensures InHand(f'.books, f'.slots[i]) {
        if i != k {
          assert InHand(f.books, f.slots[i]);
          OthersStayInHand(f.books, slot, f'.books, f'.slots[k], e, f.slots[i]);
        }
      }
    }
  }

  lemma OthersKeepOnce(f: Floor, m: Move)
    requires Once(f) && !m.Turn?
    ensures Once(Step(f, m))
  {
    var f' := Step(f, m);
    hide Step, AwardRefs, Holding, Sane, IsClaiming;
    BesideTheRuns(f, m);
    forall i | 0 <= i < |f'.slots| ensures InHand(f'.books, f'.slots[i]) {
      assert InHand(f.books, f.slots[i]);
    }
  }

  /** An overlapping read leaves two runs with one draft. */
  lemma OverlapBreaksOnce(f: Floor, m: Move)
    requires Once(f) && OverlappingRead(f, m)
    ensures !Once(Step(f, m))
  {
    var k := m.slot;
    var e := EffectOf(f.books, f.slots[k], m.action);
    var j :| 0 <= j < |f.slots| && IsClaiming(f.slots[j]) && Holding(f.slots[j]) == Some(e.draft);
    assert InHand(f.books, f.slots[k]);
    AdvancedDoes(f.books, f.slots[k], m.action, m.lost);
    var f' := Step(f, m);
    hide Advance, Advanced, EffectOf, AwardRefs, InHand;
    assert Holding(f'.slots[k]) == Some(e.draft) && Holding(f.slots[k]) == None;
    assert j != k && f'.slots[j] == f.slots[j];
    hide Holding, Step;
    assert Holding(f'.slots[if j < k then j else k]) == Holding(f'.slots[if j < k then k else j]);
  }

  ghost predicate AlwaysOnce(f: Floor, moves: seq<Move>) {
    forall k :: 0 <= k <= |moves| ==> Once(Replay(f, moves[..k]))
  }

  ghost predicate NeverOverlaps(f: Floor, moves: seq<Move>) {
    forall k :: 0 <= k < |moves| ==> !OverlappingRead(Replay(f, moves[..k]), moves[k])
  }

  lemma {:induction false} OnceUntil(f: Floor, moves: seq<Move>, k: nat, n: nat)
    requires Once(f) && n <= k <= |moves| && forall i :: 0 <= i < k ==> !OverlappingRead(Replay(f, moves[..i]), moves[i])
    ensures Once(Replay(f, moves[..n]))
  {
    hide Once, OverlappingRead, Step;
    if n > 0 {
      OnceUntil(f, moves, k, n - 1);
      ReplayNext(f, moves, n - 1);
      var before, m := Replay(f, moves[..n - 1]), moves[n - 1];
      if m.Turn? {
        TurnKeepsOnce(before, m.slot, m.action, m.lost);
      } else {
        OthersKeepOnce(before, m);
      }
    }
  }

  lemma OnceWhileApart(f: Floor, moves: seq<Move>, n: nat)
    requires Once(f) && n <= |moves| && NeverOverlaps(f, moves)
    ensures Once(Replay(f, moves[..n]))
  {
    hide Once, OverlappingRead, Replay;
    OnceUntil(f, moves, |moves|, n);
  }

  /** In every interleaving each draft stays awarded at most once, and in at most one run's hands,
    * exactly as long as no run reads a draft that another has read and not yet deleted. */
  lemma OnceIffNoOverlap(f: Floor, moves: seq<Move>)
    requires Once(f)
    ensures AlwaysOnce(f, moves) <==> NeverOverlaps(f, moves)
  {
    hide Once, OverlappingRead, Step;
    if NeverOverlaps(f, moves) {
      forall k | 0 <= k <= |moves| ensures Once(Replay(f, moves[..k])) {
        OnceWhileApart(f, moves, k);
      }
    }
    if AlwaysOnce(f, moves) {
      forall k | 0 <= k < |moves| ensures !OverlappingRead(Replay(f, moves[..k]), moves[k]) {
        ReplayNext(f, moves, k);
        assert Once(Replay(f, moves[..k])) && Once(Replay(f, moves[..k + 1]));
        if OverlappingRead(Replay(f, moves[..k]), moves[k]) {
          OverlapBreaksOnce(Replay(f, moves[..k]), moves[k]);
        }
      }
    }
  }

  // ---- Overlaps go on to a second award -----------------------------------------------------------------

  /** From having read a draft to the end of the run. */
  function Completing(): seq<Action> {
    [Claim(false)] + ([Log(false)] + ([Act(false)] + ([Finish(false)] + [Settle(false)])))
  }

  lemma PriceInDollars(b: Books, call: Call, work: Work)
    requires call.CallApprove?
    ensures FinalEffects(b, call, work).currency == "USD"
  {
    hide AwardFor, Estimate;
  }

  lemma ClaimPrices(b: Books, call: Call, s: Stage)
    requires s.Claiming? && call.CallApprove? && BudgetCurrency(b) == "USD"
    ensures var deleted := b.(pending := b.pending - {s.draft}); var work := ClaimedBy(call, s.draft, s.proposer);
            && Deleting(b, call, s, false) == (deleted, Some(Flight(call, Worked(s.reservation, work, FinalEffects(deleted, call, work)))))
            && work.Claimed? && work.draft == s.draft
  {
    PriceInDollars(b.(pending := b.pending - {s.draft}), call, ClaimedBy(call, s.draft, s.proposer));
    hide FinalEffects;
  }

  /** A run that has read a draft can award it, whether or not the row is still there. */
  lemma ClaimantCompletes(b: Books, slot: Slot)
    requires IsClaiming(slot) && Sane(slot) && BudgetCurrency(b) == "USD"
    ensures var played := Play(b, slot, Completing());
            && played.1 == None && played.0.currency == b.currency
            && AwardRefs(played.0.ledger) == AwardRefs(b.ledger) + [slot.value.stage.draft]
  {
    var call, s := slot.value.call, slot.value.stage;
    var deleted := b.(pending := b.pending - {s.draft});
    var work := ClaimedBy(call, s.draft, s.proposer);
    var effects := FinalEffects(deleted, call, work);
    var logged := AppendLog(deleted, call, Success, effects.tokens, effects.cost);
    var worked := Worked(s.reservation, work, effects);
    ClaimPrices(b, call, s);
    PlayJoins(b, slot, [Claim(false)], [Log(false)] + ([Act(false)] + ([Finish(false)] + [Settle(false)])));
    PlayOne(b, slot, Claim(false));
    PlayJoins(deleted, Some(Flight(call, worked)), [Log(false)], [Act(false)] + ([Finish(false)] + [Settle(false)]));
    PlayOne(deleted, Some(Flight(call, worked)), Log(false));
    LoggedCompletes(logged, call, Logged(s.reservation, work, effects, deleted.next));
    hide Play, FinalEffects, AwardRefs;
  }

  lemma LoggedCompletes(b: Books, call: Call, s: Stage)
    requires s.Logged? && s.work.Claimed?
    ensures var played := Play(b, Some(Flight(call, s)), [Act(false)] + ([Finish(false)] + [Settle(false)]));
            && played.1 == None && played.0.currency == b.currency
            && AwardRefs(played.0.ledger) == AwardRefs(b.ledger) + [s.work.draft]
  {
    var summed := Summed(s.reservation, s.work.draft, s.work.proposer, s.effects.tokens, Balance(b.ledger, s.work.proposer), s.logId);
    var paid := b.(ledger := b.ledger + [AwardRow(summed)]);
    var applied := Some(Flight(call, Applied(s.reservation, s.logId)));
    PlayJoins(b, Some(Flight(call, s)), [Act(false)], [Finish(false)] + [Settle(false)]);
    PlayOne(b, Some(Flight(call, s)), Act(false));
    PlayJoins(b, Some(Flight(call, summed)), [Finish(false)], [Settle(false)]);
    PlayOne(b, Some(Flight(call, summed)), Finish(false));
    PlayOne(paid, applied, Settle(false));
    PayingDoes(b, call, summed);
    SettlesQuietly(paid, call, Applied(s.reservation, s.logId));
    hide Play, AwardRefs, Balance, Settling;
  }

  lemma SettlesQuietly(b: Books, call: Call, s: Stage)
    requires s.Applied?
    ensures var next := Settling(b, call, s, false); next.1 == None && next.0.ledger == b.ledger && next.0.currency == b.currency
  {
    hide Estimate;
  }

  ghost predicate ReadsNothing(moves: seq<Move>) {
    forall k :: 0 <= k < |moves| ==> moves[k].Turn? && !moves[k].action.Read?
  }

  lemma UnreadNeverOverlaps(f: Floor, moves: seq<Move>)
    requires ReadsNothing(moves)
    ensures NeverOverlaps(f, moves)
  {
    hide Advance, Replay, Holding;
    forall k | 0 <= k < |moves| ensures !OverlappingRead(Replay(f, moves[..k]), moves[k]) {
      assert !moves[k].action.Read?;
    }
  }

  /** Two claimants of one draft complete one after the other. */
  function BothComplete(i: nat, j: nat): seq<Move> {
    TurnsOf(i, Completing()) + TurnsOf(j, Completing())
  }

  lemma BothReadNothing(i: nat, j: nat)
    ensures ReadsNothing(BothComplete(i, j))
  {
  }

  lemma BothClaimantsPay(f: Floor, i: nat, j: nat, draft: Id)
    requires i < |f.slots| && j < |f.slots| && i != j && BudgetCurrency(f.books) == "USD"
    requires IsClaiming(f.slots[i]) && IsClaiming(f.slots[j]) && Sane(f.slots[i]) && Sane(f.slots[j])
    requires Holding(f.slots[i]) == Holding(f.slots[j]) == Some(draft)
    ensures AwardRefs(Replay(f, BothComplete(i, j)).books.ledger) == AwardRefs(f.books.ledger) + [draft] + [draft]
  {
    hide Play, Replay, AwardRefs, Completing, TurnsOf, Sane;
    ClaimantCompletes(f.books, f.slots[i]);
    OneSlotPlays(f, i, Completing());
    var f1 := Replay(f, TurnsOf(i, Completing()));
    assert f1.slots[j] == f.slots[j];
    ClaimantCompletes(f1.books, f1.slots[j]);
    OneSlotPlays(f1, j, Completing());
    ReplayJoins(f, TurnsOf(i, Completing()), TurnsOf(j, Completing()));
  }

  /** Whatever comes next without an overlap, no draft is awarded twice. */
  ghost predicate AwardSafe(f: Floor) {
    forall more :: NeverOverlaps(f, more) ==> RefsDistinct(Replay(f, more).books)
  }

  lemma OnceIsSafe(f: Floor)
    requires Once(f)
    ensures AwardSafe(f)
  {
    forall more | NeverOverlaps(f, more) ensures RefsDistinct(Replay(f, more).books) {
      hide NeverOverlaps, RefsDistinct;
      OnceWhileApart(f, more, |more|);
      assert more[..|more|] == more;
      assert Once(Replay(f, more));
    }
  }

  lemma DoubledRefs(refs: seq<Id>, draft: Id)
    ensures var refs' := refs + [draft] + [draft]; refs'[|refs|] == refs'[|refs| + 1]
  {
  }

  lemma TwoClaimantsAreUnsafe(f: Floor, i: nat, j: nat, draft: Id)
    requires i < |f.slots| && j < |f.slots| && i != j && BudgetCurrency(f.books) == "USD"
    requires IsClaiming(f.slots[i]) && IsClaiming(f.slots[j]) && Sane(f.slots[i]) && Sane(f.slots[j])
    requires Holding(f.slots[i]) == Holding(f.slots[j]) == Some(draft)
    ensures !AwardSafe(f)
  {
    BothClaimantsPay(f, i, j, draft);
    BothReadNothing(i, j);
    DoubledRefs(AwardRefs(f.books.ledger), draft);
    UnreadNeverOverlaps(f, BothComplete(i, j));
    hide AwardRefs, Replay, NeverOverlaps, Holding, IsClaiming, BothComplete;
    assert !RefsDistinct(Replay(f, BothComplete(i, j)).books);
  }

  lemma OverlapIsUnsafe(f: Floor, m: Move)
    requires Once(f) && OverlappingRead(f, m) && BudgetCurrency(Step(f, m).books) == "USD"
    ensures !AwardSafe(Step(f, m))
  {
    var k := m.slot;
    var e := EffectOf(f.books, f.slots[k], m.action);
    var j :| 0 <= j < |f.slots| && IsClaiming(f.slots[j]) && Holding(f.slots[j]) == Some(e.draft);
    assert InHand(f.books, f.slots[k]) && InHand(f.books, f.slots[j]);
    AdvancedDoes(f.books, f.slots[k], m.action, m.lost);
    var f' := Step(f, m);
    hide Advance, Advanced, EffectOf, AwardRefs, AwardSafe;
    assert Holding(f'.slots[k]) == Some(e.draft) && Holding(f.slots[k]) == None;
    assert j != k && f'.slots[j] == f.slots[j];
    TwoClaimantsAreUnsafe(f', k, j, e.draft);
  }

  // ---- The currency never changes ---------------------------------------------------------------------------

  ghost predicate SameCurrency(b: Books, b': Books) {
    b'.currency == b.currency
  }

  lemma RefusingKeepsCurrency(b: Books, call: Call, reservation: Option<Id>)
    ensures SameCurrency(b, Refuse(b, call, reservation).0) && SameCurrency(b, Abort(b, reservation).0) && SameCurrency(b, LogRefusal(b, call))
  {
  }

  lemma EntryKeepsCurrency(b: Books, call: Call, now: int, prune: bool)
    ensures SameCurrency(b, Entering(b, call, now, prune).0) && SameCurrency(b, Authorizing(b, call).0)
  {
    hide Entering, Authorizing;
    EnteringWrites(b, call, now, prune);
    AuthorizingWrites(b, call);
  }

  lemma PricingKeepsCurrency(b: Books, call: Call, work: Work, reservation: Option<Id>)
    ensures SameCurrency(b, Pricing(b, call, work, reservation).0)
  {
    hide FinalEffects, Refuse;
    RefusingKeepsCurrency(b, call, reservation);
  }

  lemma WorkKeepsCurrency(b: Books, call: Call, reservation: Option<Id>)
    ensures SameCurrency(b, Working(b, call, reservation).0)
  {
    hide Pricing, Refuse, ResolveDraft, CostOfLog;
    RefusingKeepsCurrency(b, call, reservation);
    if Execute(b, call).Some? {
      PricingKeepsCurrency(Execute(b, call).value.0, call, Execute(b, call).value.1, reservation);
    }
  }

  lemma ClaimKeepsCurrency(b: Books, call: Call, s: Stage, fails: bool)
    ensures s.Resolved? ==> SameCurrency(b, Reading(b, call, s).0)
    ensures s.Claiming? ==> SameCurrency(b, Deleting(b, call, s, fails).0)
    ensures s.Worked? ==> SameCurrency(b, Logging(b, call, s, fails).0)
    ensures s.Logged? ==> SameCurrency(b, Acting(b, call, s, fails).0)
    ensures s.Applied? ==> SameCurrency(b, Settling(b, call, s, fails).0)
  {
    hide Pricing, Refuse, Abort, Balance, Reverse, Resolvable, Estimate;
    if !s.Entered? {
      RefusingKeepsCurrency(b, call, s.reservation);
    }
    if s.Claiming? {
      PricingKeepsCurrency(b.(pending := b.pending - {s.draft}), call, ClaimedBy(call, s.draft, s.proposer), s.reservation);
    }
  }

  lemma FinishKeepsCurrency(b: Books, call: Call, s: Stage, fails: bool)
    requires s.Summed? || s.Checked? || s.Flipped?
    ensures SameCurrency(b, Finishing(b, call, s, fails).0)
  {
    hide Abort, HasPlatform, Post, Refund;
    RefusingKeepsCurrency(b, call, s.reservation);
  }

  lemma AdvanceKeepsCurrency(b: Books, slot: Slot, action: Action)
    ensures SameCurrency(b, Advance(b, slot, action).0)
  {
    hide Entering, Authorizing, Working, Reading, Deleting, Logging, Acting, Finishing, Settling;
    match slot
    case None =>
      if action.Enter? { EntryKeepsCurrency(b, action.call, action.now, action.prune); }
    case Some(Flight(call, s)) =>
      EntryKeepsCurrency(b, call, 0, false);
      if s.Authorized? { WorkKeepsCurrency(b, call, s.reservation); }
      if action.Read? { ClaimKeepsCurrency(b, call, s, false); }
      if action.Claim? || action.Log? || action.Act? || action.Settle? { ClaimKeepsCurrency(b, call, s, action.fails); }
      if (s.Summed? || s.Checked? || s.Flipped?) && action.Finish? { FinishKeepsCurrency(b, call, s, action.fails); }
  }

  lemma StepKeepsCurrency(f: Floor, m: Move)
    ensures SameCurrency(f.books, Step(f, m).books)
  {
    if m.Turn? && m.slot < |f.slots| {
      AdvanceKeepsCurrency(f.books, f.slots[m.slot], m.action);
      AdvancedIsAdvance(f.books, f.slots[m.slot], m.action, m.lost);
      hide Advance, Advanced;
    } else {
      hide Step;
      BesideTheRuns(f, m);
    }
  }

  lemma {:induction false} ReplayKeepsCurrency(f: Floor, moves: seq<Move>)
    ensures SameCurrency(f.books, Replay(f, moves).books)
  {
    if moves != [] {
      ReplayKeepsCurrency(f, moves[..|moves| - 1]);
      StepKeepsCurrency(Replay(f, moves[..|moves| - 1]), moves[|moves| - 1]);
      hide Step;
    }
  }

  /** Main result, drafts: under a USD budget, an interleaving leaves no draft that could yet be awarded twice, however the runs
    * in flight go on without overlapping, exactly when no run in it read a draft that another had read and not yet deleted. */
  lemma AtMostOnceIffNoOverlap(f: Floor, moves: seq<Move>)
    requires Once(f) && BudgetCurrency(f.books) == "USD"
    ensures (forall k :: 0 <= k <= |moves| ==> AwardSafe(Replay(f, moves[..k]))) <==> NeverOverlaps(f, moves)
  {
    hide Once, OverlappingRead, Step, AwardSafe;
    if NeverOverlaps(f, moves) {
      forall k | 0 <= k <= |moves| ensures AwardSafe(Replay(f, moves[..k])) {
        OnceWhileApart(f, moves, k);
        OnceIsSafe(Replay(f, moves[..k]));
      }
    } else {
      var k := FirstOverlap(f, moves);
      OnceUntil(f, moves, k, k);
      ReplayNext(f, moves, k);
      ReplayKeepsCurrency(f, moves[..k + 1]);
      OverlapIsUnsafe(Replay(f, moves[..k]), moves[k]);
      assert !AwardSafe(Replay(f, moves[..k + 1]));
    }
  }

  lemma {:induction false} FirstOverlap(f: Floor, moves: seq<Move>) returns (k: nat)
    requires !NeverOverlaps(f, moves)
    ensures k < |moves| && OverlappingRead(Replay(f, moves[..k]), moves[k])
    ensures forall i :: 0 <= i < k ==> !OverlappingRead(Replay(f, moves[..i]), moves[i])
  {
    hide OverlappingRead, Replay;
    k := 0;
    while !OverlappingRead(Replay(f, moves[..k]), moves[k])
      invariant k < |moves|
      invariant forall i :: 0 <= i < k ==> !OverlappingRead(Replay(f, moves[..i]), moves[i])
      decreases |moves| - k
    {
      k := k + 1;
    }
  }
}
