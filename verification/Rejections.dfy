/** Rejections when runs interleave: reject_draft checks its row in Step 2 and reverses it in Step 6
  * (tools/reject_draft.go). */
module Rejections {
  import opened Common
  import opened Books
  import opened Sums
  import opened Engine
  import opened Interleaving
  import RateLimit
  import TokenFlows

  // ---- What a step does to the ledger -----------------------------------------------------------------

  predicate IsReversal(slot: Slot, action: Action) {
    slot.Some? && slot.value.stage.Logged? && slot.value.stage.work.ToReverse? && action.Act? && !action.fails
  }

  /** No row, or one confirmed row more. */
  ghost predicate Extends(ledger: seq<LedgerRow>, ledger': seq<LedgerRow>) {
    ledger' == ledger
    || (|ledger'| == |ledger| + 1 && ledger'[..|ledger|] == ledger && ledger'[|ledger|].status == Confirmed)
  }

  lemma RefusingKeepsLedger(b: Books, call: Call, reservation: Option<Id>)
    ensures Refuse(b, call, reservation).0.ledger == Abort(b, reservation).0.ledger == LogRefusal(b, call).ledger == b.ledger
    ensures Refuse(b, call, reservation).1 == Abort(b, reservation).1 == None
  {
  }

  lemma EntryKeepsLedger(b: Books, call: Call, now: int, prune: bool)
    ensures Entering(b, call, now, prune).0.ledger == b.ledger
  {
    hide Entering;
    EnteringWrites(b, call, now, prune);
  }

  lemma AuthorizingKeepsLedger(b: Books, call: Call)
    ensures Authorizing(b, call).0.ledger == b.ledger
  {
    hide Authorizing;
    AuthorizingWrites(b, call);
  }

  lemma PricingKeepsLedger(b: Books, call: Call, work: Work, reservation: Option<Id>)
    ensures Pricing(b, call, work, reservation).0.ledger == b.ledger
  {
    hide FinalEffects, Refuse;
    RefusingKeepsLedger(b, call, reservation);
  }

  lemma WorkKeepsLedger(b: Books, call: Call, reservation: Option<Id>)
    ensures Working(b, call, reservation).0.ledger == b.ledger
  {
    hide Pricing, Refuse, ResolveDraft, CostOfLog;
    RefusingKeepsLedger(b, call, reservation);
    if Execute(b, call).Some? {
      PricingKeepsLedger(Execute(b, call).value.0, call, Execute(b, call).value.1, reservation);
    }
  }

  lemma MiddleKeepsLedger(b: Books, call: Call, s: Stage, fails: bool)
    ensures s.Resolved? ==> Reading(b, call, s).0.ledger == b.ledger
    ensures s.Claiming? ==> Deleting(b, call, s, fails).0.ledger == b.ledger
    ensures s.Worked? ==> Logging(b, call, s, fails).0.ledger == b.ledger
    ensures s.Logged? && (fails || !s.work.ToReverse?) ==> Acting(b, call, s, fails).0.ledger == b.ledger
    ensures s.Applied? ==> Settling(b, call, s, fails).0.ledger == b.ledger
  {
    hide Pricing, Refuse, Abort, Balance, Resolvable, Estimate;
    if !s.Entered? {
      RefusingKeepsLedger(b, call, s.reservation);
    }
    if s.Claiming? {
      PricingKeepsLedger(b.(pending := b.pending - {s.draft}), call, ClaimedBy(call, s.draft, s.proposer), s.reservation);
    }
  }

  lemma FinishExtends(b: Books, call: Call, s: Stage, fails: bool)
    requires s.Summed? || s.Checked? || s.Flipped?
    ensures Extends(b.ledger, Finishing(b, call, s, fails).0.ledger)
  {
    hide Abort, Resolve, Refund;
    RefusingKeepsLedger(b, call, s.reservation);
    if s.Checked? && Resolve(b, s.work, s.logId).Some? {
      TokenFlows.ResolvedTables(b, s.work, s.logId);
    }
  }

  lemma AdvanceWrites(b: Books, slot: Slot, action: Action)
    ensures var ledger' := Advance(b, slot, action).0.ledger;
            if IsReversal(slot, action) then ledger' == Reverse(b.ledger, slot.value.stage.work.logId) else Extends(b.ledger, ledger')
  {
    if IsReversal(slot, action) {
      hide Reverse;
    } else {
      hide Entering, Authorizing, Working, Reading, Deleting, Logging, Acting, Finishing, Settling, Reverse;
      match slot
      case None =>
        if action.Enter? { EntryKeepsLedger(b, action.call, action.now, action.prune); }
      case Some(Flight(call, s)) =>
        AuthorizingKeepsLedger(b, call);
        if s.Authorized? { WorkKeepsLedger(b, call, s.reservation); }
        if action.Read? { MiddleKeepsLedger(b, call, s, false); }
        if action.Claim? || action.Log? || action.Act? || action.Settle? { MiddleKeepsLedger(b, call, s, action.fails); }
        if (s.Summed? || s.Checked? || s.Flipped?) && action.Finish? { FinishExtends(b, call, s, action.fails); }
    }
  }

  // ---- What a run is about to reverse -------------------------------------------------------------------

  /** The row a run has checked and not yet reversed. */
  function Targeting(slot: Slot): Option<Id> {
    if slot.Some? && slot.value.call.CallReject?
       && (slot.value.stage.Entered? || slot.value.stage.Authorized? || slot.value.stage.Worked? || slot.value.stage.Logged?)
    then Some(slot.value.call.logId) else None
  }

  /** A rejection works on the row it checked, and nothing else reverses. */
  ghost predicate OnTarget(slot: Slot) {
    slot.Some? ==>
      var Flight(call, s) := slot.value;
      && (call.CallReject? ==> !s.Resolved? && !s.Claiming?)
      && (s.Resolved? || s.Claiming? ==> call.CallApprove?)
      && (s.Worked? || s.Logged? ==>
            (s.work.ToReverse? <==> call.CallReject?) && (s.work.ToReverse? ==> s.work.logId == call.logId))
  }

  /** The step by which a rejection enters. */
  ghost predicate Targets(b: Books, slot: Slot, action: Action, target: Id) {
    slot == None && action.Enter? && Targeting(Advance(b, slot, action).1) == Some(target)
  }

  lemma EnteringChecks(b: Books, call: Call, now: int, prune: bool)
    ensures var slot := Entering(b, call, now, prune).1;
            && (slot.Some? ==> slot == Some(Flight(call, Entered)))
            && (slot.Some? && call.CallReject? ==> IsConfirmed(b.ledger, call.logId))
  {
    hide RateLimit.CheckAndIncrement, IsActive;
  }

  lemma PricingGoesOn(b: Books, call: Call, work: Work, reservation: Option<Id>)
    ensures var slot := Pricing(b, call, work, reservation).1;
            slot.Some? ==> slot.value.call == call && slot.value.stage.Worked? && slot.value.stage.work == work
  {
    hide FinalEffects, SetReservation, LogRefusal;
  }

  lemma WorkingOnTarget(b: Books, call: Call, reservation: Option<Id>)
    ensures var slot := Working(b, call, reservation).1;
            OnTarget(slot) && (slot.Some? ==> slot.value.call == call && (slot.value.stage.Worked? || slot.value.stage.Resolved?))
  {
    hide Pricing, Refuse, ResolveDraft, CostOfLog;
    RefusingKeepsLedger(b, call, reservation);
    if Execute(b, call).Some? {
      PricingGoesOn(Execute(b, call).value.0, call, Execute(b, call).value.1, reservation);
    }
  }

  lemma MiddleOnTarget(b: Books, call: Call, s: Stage, action: Action)
    requires OnTarget(Some(Flight(call, s))) && !s.Entered? && !s.Authorized?
    ensures var slot' := Advance(b, Some(Flight(call, s)), action).1;
            && OnTarget(slot')
            && (Targeting(slot').Some? ==> Targeting(slot') == Targeting(Some(Flight(call, s))))
            && (IsReversal(Some(Flight(call, s)), action) ==> Targeting(slot') == None)
  {
    hide Pricing, SetReservation, LogRefusal, Balance, Resolvable, Resolve, Refund, RecordSpend, Estimate, Reverse;
    if s.Claiming? {
      PricingGoesOn(b.(pending := b.pending - {s.draft}), call, ClaimedBy(call, s.draft, s.proposer), s.reservation);
    }
  }

  /** A run's target stays its own until it is reversed; a new one is a confirmed row. */
  lemma AdvanceOnTarget(b: Books, slot: Slot, action: Action)
    requires OnTarget(slot)
    ensures var slot' := Advance(b, slot, action).1;
            && OnTarget(slot')
            && (Targeting(slot').Some? ==>
                  Targeting(slot') == Targeting(slot)
                  || (Targets(b, slot, action, Targeting(slot').value) && IsConfirmed(b.ledger, Targeting(slot').value)))
            && (IsReversal(slot, action) ==> Targeting(slot') == None)
  {
    match slot
    case None =>
      if action.Enter? {
        hide Entering, IsConfirmed;
        EnteringChecks(b, action.call, action.now, action.prune);
      }
    case Some(Flight(call, s)) =>
      if s.Entered? || s.Authorized? {
        hide Working, Reserve, LogRefusal, Estimate;
        if s.Authorized? { WorkingOnTarget(b, call, s.reservation); }
      } else {
        hide Advance;
        MiddleOnTarget(b, call, s, action);
      }
  }

  // ---- Each row is reversed at most once ------------------------------------------------------------------

  /** What a run has checked is not reversed, and no two runs are about to reverse one row. */
  ghost predicate Single(f: Floor) {
    && (forall i :: 0 <= i < |f.slots| ==> OnTarget(f.slots[i]))
    && (forall i :: 0 <= i < |f.slots| && Targeting(f.slots[i]).Some? ==> Reversible(f.books.ledger, Targeting(f.slots[i]).value))
    && (forall i, j :: 0 <= i < j < |f.slots| && Targeting(f.slots[i]).Some? ==> Targeting(f.slots[i]) != Targeting(f.slots[j]))
  }

  ghost predicate Reversible(ledger: seq<LedgerRow>, target: Id) {
    HasLogId(ledger, target) && target !in ReversedIds(ledger)
  }

  /** A run checks a row that another has checked and not yet reversed. */
  ghost predicate OverlappingEntry(f: Floor, m: Move) {
    && m.Turn? && m.slot < |f.slots|
    && exists j :: 0 <= j < |f.slots| && Targeting(f.slots[j]).Some?
                   && Targets(f.books, f.slots[m.slot], m.action, Targeting(f.slots[j]).value)
  }

  /** A run reverses a row that is reversed already, and goes on to refund it again. */
  ghost predicate RepeatsReversal(f: Floor, m: Move) {
    && m.Turn? && m.slot < |f.slots| && IsReversal(f.slots[m.slot], m.action)
    && f.slots[m.slot].value.stage.work.logId in ReversedIds(f.books.ledger)
  }

  lemma StaysReversible(ledger: seq<LedgerRow>, ledger': seq<LedgerRow>, target: Id)
    requires Extends(ledger, ledger') && Reversible(ledger, target)
    ensures Reversible(ledger', target)
  {
    if ledger' != ledger {
      var row := ledger'[|ledger|];
      assert ledger' == ledger + [row];
      ReversedIdsAppend(ledger, row);
      var i :| 0 <= i < |ledger| && ledger[i].logId == target;
      assert ledger'[i].logId == target;
    }
  }

  lemma OthersStayReversible(ledger: seq<LedgerRow>, reversed: Id, target: Id)
    requires Reversible(ledger, target) && reversed != target
    ensures Reversible(Reverse(ledger, reversed), target)
  {
    var i :| 0 <= i < |ledger| && ledger[i].logId == target;
    assert Reverse(ledger, reversed)[i].logId == target;
  }

  lemma ConfirmedIsReversible(ledger: seq<LedgerRow>, target: Id)
    requires TokenFlows.Unique(ledger) && IsConfirmed(ledger, target)
    ensures Reversible(ledger, target)
  {
    var i: nat :| i < |ledger| && ledger[i].logId == target && ledger[i].status == Confirmed;
    TokenFlows.NotYetReversed(ledger, i);
  }

  lemma SlotAfter(f: Floor, k: nat, action: Action, lost: bool)
    requires k < |f.slots|
    ensures var f' := Step(f, Turn(k, action, lost)); var next := Advance(f.books, f.slots[k], action);
            f'.books.ledger == next.0.ledger && f'.slots == f.slots[k := next.1]
  {
    AdvancedIsAdvance(f.books, f.slots[k], action, lost);
    hide Advance, Advanced;
  }

  lemma RowsStayReversible(f: Floor, k: nat, action: Action, lost: bool, i: nat)
    requires Single(f) && TokenFlows.Unique(f.books.ledger) && k < |f.slots| && i < |f.slots|
    requires var slots' := Step(f, Turn(k, action, lost)).slots; i < |slots'| && Targeting(slots'[i]).Some?
    ensures var f' := Step(f, Turn(k, action, lost)); Reversible(f'.books.ledger, Targeting(f'.slots[i]).value)
  {
    var slot, f' := f.slots[k], Step(f, Turn(k, action, lost));
    SlotAfter(f, k, action, lost);
    AdvanceWrites(f.books, slot, action);
    AdvanceOnTarget(f.books, slot, action);
    var target := Targeting(f'.slots[i]).value;
    hide Step, Advance, Targeting, Reversible, Extends, Reverse, Targets, IsConfirmed, TokenFlows.Unique;
    if i == k && Targeting(f'.slots[k]) != Targeting(slot) {
      ConfirmedIsReversible(f.books.ledger, target);
      if !IsReversal(slot, action) {
        StaysReversible(f.books.ledger, f'.books.ledger, target);
      }
    } else if IsReversal(slot, action) {
      ReversalTargets(slot, action);
      assert Targeting(f.slots[if i < k then i else k]) != Targeting(f.slots[if i < k then k else i]);
      OthersStayReversible(f.books.ledger, slot.value.stage.work.logId, target);
    } else {
      StaysReversible(f.books.ledger, f'.books.ledger, target);
    }
  }

  lemma ReversalTargets(slot: Slot, action: Action)
    requires IsReversal(slot, action) && OnTarget(slot)
    ensures Targeting(slot) == Some(slot.value.stage.work.logId)
  {
  }

  lemma TargetsStayApart(f: Floor, k: nat, action: Action, lost: bool)
    requires Single(f) && k < |f.slots| && !OverlappingEntry(f, Turn(k, action, lost))
    ensures var slots' := Step(f, Turn(k, action, lost)).slots;
            && (forall i :: 0 <= i < |slots'| ==> OnTarget(slots'[i]))
            && forall i, j :: 0 <= i < j < |slots'| && Targeting(slots'[i]).Some? ==> Targeting(slots'[i]) != Targeting(slots'[j])
  {
    SlotAfter(f, k, action, lost);
    AdvanceOnTarget(f.books, f.slots[k], action);
    hide Step, Advance, Targeting, OnTarget, Targets, IsConfirmed;
  }

  lemma StepStaysSingle(f: Floor, m: Move)
    requires Single(f) && TokenFlows.Unique(f.books.ledger) && !OverlappingEntry(f, m)
    ensures Single(Step(f, m)) && !RepeatsReversal(f, m)
  {
    if m.Turn? && m.slot < |f.slots| {
      if IsReversal(f.slots[m.slot], m.action) {
        ReversalTargets(f.slots[m.slot], m.action);
      }
      TargetsStayApart(f, m.slot, m.action, m.lost);
      var f' := Step(f, m);
      SlotAfter(f, m.slot, m.action, m.lost);
      hide Step, Targeting, OnTarget, TokenFlows.Unique, OverlappingEntry;
      forall i | 0 <= i < |f'.slots| && Targeting(f'.slots[i]).Some? ensures Reversible(f'.books.ledger, Targeting(f'.slots[i]).value) {
        RowsStayReversible(f, m.slot, m.action, m.lost, i);
      }
    } else {
      hide Step, Targeting, OnTarget;
      BesideTheRuns(f, m);
    }
  }

  ghost predicate NeverOverlapsEntry(f: Floor, moves: seq<Move>) {
    forall k :: 0 <= k < |moves| ==> !OverlappingEntry(Replay(f, moves[..k]), moves[k])
  }

  ghost predicate NeverRepeats(f: Floor, moves: seq<Move>) {
    forall k :: 0 <= k < |moves| ==> !RepeatsReversal(Replay(f, moves[..k]), moves[k])
  }

  /** Whatever comes next without an overlap, no row is reversed, and so refunded, twice. */
  ghost predicate RefundSafe(f: Floor) {
    forall more :: NeverOverlapsEntry(f, more) ==> NeverRepeats(f, more)
  }

  lemma SoundIsUnique(f: Floor)
    requires TokenFlows.Sound(f)
    ensures TokenFlows.Unique(f.books.ledger)
  {
  }

  lemma StaysUnique(f: Floor, moves: seq<Move>)
    requires TokenFlows.Sound(f)
    ensures TokenFlows.Unique(Replay(f, moves).books.ledger)
  {
    hide TokenFlows.Sound, TokenFlows.Unique, Replay;
    TokenFlows.TokensAreDueOrStray(f, moves);
    SoundIsUnique(Replay(f, moves));
  }

  lemma {:induction false} SingleUntil(f: Floor, moves: seq<Move>, n: nat)
    requires Single(f) && TokenFlows.Sound(f) && n <= |moves|
    requires forall i :: 0 <= i < n ==> !OverlappingEntry(Replay(f, moves[..i]), moves[i])
    ensures Single(Replay(f, moves[..n])) && forall i :: 0 <= i < n ==> !RepeatsReversal(Replay(f, moves[..i]), moves[i])
  {
    hide Single, OverlappingEntry, RepeatsReversal, Step, TokenFlows.Sound, TokenFlows.Unique;
    if n > 0 {
      SingleUntil(f, moves, n - 1);
      ReplayNext(f, moves, n - 1);
      StaysUnique(f, moves[..n - 1]);
      StepStaysSingle(Replay(f, moves[..n - 1]), moves[n - 1]);
    }
  }

  lemma SingleIsSafe(f: Floor)
    requires Single(f) && TokenFlows.Sound(f)
    ensures RefundSafe(f)
  {
    forall more | NeverOverlapsEntry(f, more) ensures NeverRepeats(f, more) {
      SingleUntil(f, more, |more|);
    }
  }

  // ---- An overlap goes on to a second reversal ----------------------------------------------------------------

  /** A rejection that has its work in hand. */
  ghost predicate IsReady(slot: Slot, target: Id) {
    slot.Some? && slot.value.call.CallReject? && slot.value.stage.Logged? && slot.value.stage.work.ToReverse?
    && slot.value.stage.work.logId == target
  }

  ghost predicate EntersNothing(actions: seq<Action>) {
    forall i :: 0 <= i < |actions| ==> !actions[i].Enter?
  }

  function Rank(slot: Slot): nat {
    if slot.None? then 0
    else if slot.value.stage.Entered? then 3
    else if slot.value.stage.Authorized? then 2
    else if slot.value.stage.Worked? then 1
    else 0
  }

  function NextAction(slot: Slot): Action {
    if Rank(slot) == 3 then Authorize else if Rank(slot) == 2 then Work else Log(false)
  }

  /** A rejection short of its reversal can take its next step: it reserves nothing and costs nothing. */
  lemma RejectionAdvances(b: Books, slot: Slot)
    requires Targeting(slot).Some? && OnTarget(slot) && Rank(slot) > 0
    ensures var next := Advance(b, slot, NextAction(slot));
            && Targeting(next.1) == Targeting(slot) && OnTarget(next.1) && Rank(next.1) == Rank(slot) - 1
            && next.0.ledger == b.ledger
  {
    hide IsConfirmed, CostOfLog;
  }

  lemma ReachesReversal(b: Books, slot: Slot) returns (actions: seq<Action>)
    requires Targeting(slot).Some? && OnTarget(slot)
    ensures EntersNothing(actions)
    ensures var played := Play(b, slot, actions); played.0.ledger == b.ledger && IsReady(played.1, Targeting(slot).value)
    decreases Rank(slot)
  {
    if Rank(slot) == 0 {
      actions := [];
    } else {
      RejectionAdvances(b, slot);
      var next := Advance(b, slot, NextAction(slot));
      hide Play, Advance, Targeting, OnTarget, Rank;
      var rest := ReachesReversal(next.0, next.1);
      PlayJoins(b, slot, [NextAction(slot)], rest);
      PlayOne(b, slot, NextAction(slot));
      NextEntersNothing(slot);
      actions := [NextAction(slot)] + rest;
    }
  }

  lemma NextEntersNothing(slot: Slot)
    ensures !NextAction(slot).Enter?
  {
  }

  lemma ReadyIsReversal(slot: Slot, target: Id)
    requires IsReady(slot, target)
    ensures IsReversal(slot, Act(false)) && slot.value.stage.work.logId == target
  {
  }

  /** A run up to and including its reversal. */
  lemma RunsToReversal(f: Floor, k: nat, target: Id) returns (moves: seq<Move>, last: nat)
    requires k < |f.slots| && Targeting(f.slots[k]) == Some(target) && OnTarget(f.slots[k])
    ensures last < |moves| && moves[last] == Turn(k, Act(false), false) && last == |moves| - 1
    ensures forall i :: 0 <= i < |moves| ==> moves[i].Turn? && moves[i].slot == k && !moves[i].action.Enter?
    ensures var before := Replay(f, moves[..last]);
            && before.books.ledger == f.books.ledger && |before.slots| == |f.slots| && IsReady(before.slots[k], target)
    ensures var f' := Replay(f, moves);
            && f'.books.ledger == Reverse(f.books.ledger, target) && |f'.slots| == |f.slots|
            && forall i :: 0 <= i < |f.slots| && i != k ==> f'.slots[i] == f.slots[i]
  {
    var actions := ReachesReversal(f.books, f.slots[k]);
    OneSlotPlays(f, k, actions);
    var turns := TurnsOf(k, actions);
    var before := Replay(f, turns);
    ReadyIsReversal(before.slots[k], target);
    AdvanceWrites(before.books, before.slots[k], Act(false));
    SlotAfter(before, k, Act(false), false);
    ReplayJoins(f, turns, [Turn(k, Act(false), false)]);
    ReplayOne(before, Turn(k, Act(false), false));
    hide Play, Replay, Step, Advance, Reverse, IsReady, OnTarget, Targeting;
    moves := turns + [Turn(k, Act(false), false)];
    last := |turns|;
    assert moves[..last] == turns;
  }

  lemma ReversedNow(ledger: seq<LedgerRow>, target: Id)
    requires HasLogId(ledger, target)
    ensures target in ReversedIds(Reverse(ledger, target))
  {
    ReversedIdsReverse(ledger, target);
  }

  lemma TurnsWithoutEntry(f: Floor, moves: seq<Move>)
    requires forall i :: 0 <= i < |moves| ==> moves[i].Turn? && !moves[i].action.Enter?
    ensures NeverOverlapsEntry(f, moves)
  {
    hide Replay, Targeting, Advance;
    forall k | 0 <= k < |moves| ensures !OverlappingEntry(Replay(f, moves[..k]), moves[k]) {
      assert !moves[k].action.Enter?;
    }
  }

  lemma TwoTargetsAreUnsafe(f: Floor, i: nat, j: nat, target: Id)
    requires i < |f.slots| && j < |f.slots| && i != j && OnTarget(f.slots[i]) && OnTarget(f.slots[j])
    requires Targeting(f.slots[i]) == Targeting(f.slots[j]) == Some(target) && HasLogId(f.books.ledger, target)
    ensures !RefundSafe(f)
  {
    var first, firstLast := RunsToReversal(f, i, target);
    var f1 := Replay(f, first);
    assert f1.slots[j] == f.slots[j];
    var second, last := RunsToReversal(f1, j, target);
    ReversedNow(f.books.ledger, target);
    var more := first + second;
    hide Replay, Targeting, OnTarget, Reverse, ReversedIds, HasLogId;
    TurnsWithoutEntry(f, more);
    assert more[..|first| + last] == first + second[..last] && more[|first| + last] == second[last];
    ReplayJoins(f, first, second[..last]);
    ReadyIsReversal(Replay(f1, second[..last]).slots[j], target);
    assert RepeatsReversal(Replay(f, more[..|first| + last]), more[|first| + last]);
  }

  lemma OverlapIsUnsafe(f: Floor, m: Move)
    requires Single(f) && OverlappingEntry(f, m)
    ensures !RefundSafe(Step(f, m))
  {
    var k, slot := m.slot, f.slots[m.slot];
    var j :| 0 <= j < |f.slots| && Targeting(f.slots[j]).Some? && Targets(f.books, slot, m.action, Targeting(f.slots[j]).value);
    var target := Targeting(f.slots[j]).value;
    assert Reversible(f.books.ledger, target) && OnTarget(slot) && OnTarget(f.slots[j]);
    var f' := Step(f, m);
    SlotAfter(f, k, m.action, m.lost);
    AdvanceOnTarget(f.books, slot, m.action);
    EntryWrites(f.books, m.action.call, m.action.now, m.action.prune);
    assert f'.books.ledger == f.books.ledger;
    hide Step, OnTarget, Entering, RefundSafe, IsConfirmed, ReversedIds;
    assert j != k by { assert Targeting(slot) == None; }
    TwoTargetsAreUnsafe(f', j, k, target);
  }

  lemma EntryWrites(b: Books, call: Call, now: int, prune: bool)
    ensures Advance(b, None, Enter(call, now, prune)).0.ledger == b.ledger
  {
    hide Entering;
    EntryKeepsLedger(b, call, now, prune);
  }

  lemma FirstOverlap(f: Floor, moves: seq<Move>) returns (k: nat)
    requires !NeverOverlapsEntry(f, moves)
    ensures k < |moves| && OverlappingEntry(Replay(f, moves[..k]), moves[k])
    ensures forall i :: 0 <= i < k ==> !OverlappingEntry(Replay(f, moves[..i]), moves[i])
  {
    hide OverlappingEntry, Replay;
    k := 0;
    while !OverlappingEntry(Replay(f, moves[..k]), moves[k])
      invariant k < |moves|
      invariant forall i :: 0 <= i < k ==> !OverlappingEntry(Replay(f, moves[..i]), moves[i])
      decreases |moves| - k
    {
      k := k + 1;
    }
  }

  /** Main result, rejections: an interleaving leaves no row that could yet be reversed and refunded twice, however the runs in
    * flight go on without overlapping, exactly when no run in it checked a row that another had checked and not yet reversed. */
  lemma RefundsOnceIffNoOverlap(f: Floor, moves: seq<Move>)
    requires Single(f) && TokenFlows.Sound(f)
    ensures (forall k :: 0 <= k <= |moves| ==> RefundSafe(Replay(f, moves[..k]))) <==> NeverOverlapsEntry(f, moves)
    ensures NeverOverlapsEntry(f, moves) ==> NeverRepeats(f, moves)
  {
    hide Single, OverlappingEntry, RepeatsReversal, Step, RefundSafe, TokenFlows.Sound;
    if NeverOverlapsEntry(f, moves) {
      forall k | 0 <= k <= |moves| ensures RefundSafe(Replay(f, moves[..k])) {
        SingleUntil(f, moves, k);
        TokenFlows.TokensAreDueOrStray(f, moves[..k]);
        SingleIsSafe(Replay(f, moves[..k]));
      }
      SingleUntil(f, moves, |moves|);
    } else {
      var k := FirstOverlap(f, moves);
      SingleUntil(f, moves, k);
      ReplayNext(f, moves, k);
      OverlapIsUnsafe(Replay(f, moves[..k]), moves[k]);
      assert !RefundSafe(Replay(f, moves[..k + 1]));
    }
  }
}
