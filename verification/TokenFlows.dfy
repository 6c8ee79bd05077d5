/** Tokens when runs interleave: the successful approvals of the log against the awards of the ledger. */
module TokenFlows {
  import opened Common
  import opened Books
  import opened Sums
  import opened Engine
  import opened Interleaving
  import Accounting
  import Reservations
  import RateLimit

  // ---- The tables ---------------------------------------------------------------------------------------

  function PassageOf(row: LedgerRow): int {
    if row.source == Passage then row.delta else 0
  }

  /** tokens_delta of the un-rejected approvals less the confirmed awards. */
  function TokenGap(b: Books): int {
    Total(b.logs, AwardOf, ReversedIds(b.ledger)) - Sum(b.ledger, PassageOf)
  }

  /** The confirmed balances are the awards less the entry fees. */
  lemma {:induction false} BalancesAreAwardsLessFees(ledger: seq<LedgerRow>)
    ensures Sum(ledger, DeltaOf) == Sum(ledger, PassageOf) - Sum(ledger, FeeOf)
  {
    if ledger != [] {
      BalancesAreAwardsLessFees(ledger[..|ledger| - 1]);
    }
  }

  /** Each ledger row has its own log row, which says what it is worth. */
  ghost predicate Backed(b: Books) {
    && LogsOrdered(b.logs, b.next)
    && (forall i: nat :: i < |b.ledger| ==> Accounting.IsBacked(b.logs, b.ledger[i]))
    && (forall i, j :: 0 <= i < j < |b.ledger| ==> b.ledger[i].logId != b.ledger[j].logId)
  }

  /** The success row of a run in flight that has not posted yet. */
  ghost predicate HasOwnLog(logs: seq<LogRow>, call: Call, logId: Id, tokens: int) {
    exists k: nat :: k < |logs| && logs[k].id == logId && logs[k].result == Success && logs[k].tool == ToolOf(call)
                     && (call.CallApprove? ==> logs[k].tokens == tokens)
  }

  /** The log id of a run that may still post a row. */
  function Unposted(slot: Slot): Option<Id> {
    if slot.None? then None
    else
      match slot.value.stage
      case Logged(_, _, _, logId) => Some(logId)
      case Summed(_, _, _, _, _, logId) => Some(logId)
      case Checked(_, _, logId) => Some(logId)
      case _ => None
  }

  /** The tokens of a logged approval that are not in the ledger yet. */
  function TokensDue(slot: Slot): int {
    if slot.None? then 0
    else
      match slot.value.stage
      case Logged(_, work, effects, _) => if work.Claimed? then effects.tokens else 0
      case Summed(_, _, _, tokens, _, _) => tokens
      case _ => 0
  }

  ghost predicate Owes(b: Books, slot: Slot) {
    slot.Some? ==>
      var Flight(call, s) := slot.value;
      && (s.Resolved? || s.Claiming? || s.Summed? ==> call.CallApprove?)
      && (s.Worked? || s.Logged? ==> (s.work.Claimed? <==> call.CallApprove?) && (s.work.ToApprove? ==> call.CallApproveAccess?))
      && (s.Checked? ==> !s.work.Claimed? && (s.work.ToApprove? ==> call.CallApproveAccess?))
      && (s.Logged? ==> HasOwnLog(b.logs, call, s.logId, s.effects.tokens))
      && (s.Summed? ==> HasOwnLog(b.logs, call, s.logId, s.tokens))
      && (s.Checked? ==> HasOwnLog(b.logs, call, s.logId, 0) || !call.CallApproveAccess?)
      && (Unposted(slot).Some? ==> !HasLogId(b.ledger, Unposted(slot).value) && Unposted(slot).value < b.next)
  }

  // ---- One step -----------------------------------------------------------------------------------------

  /** What a step does: it keeps the tables backed, changes the gap by this much, and posts at most its own log. */
  ghost predicate Moves(b: Books, b': Books, change: int) {
    && Backed(b') && b.logs <= b'.logs && b'.next >= b.next && TokenGap(b') == TokenGap(b) + change
  }

  /** No row is added but for this log. */
  ghost predicate PostsOnly(b: Books, b': Books, own: Option<Id>) {
    forall id: Id :: HasLogId(b'.ledger, id) ==> HasLogId(b.ledger, id) || own == Some(id)
  }

  /** A step keeps its run's log id, gives it up, or takes a new one. */
  ghost predicate Continues(b: Books, slot: Slot, slot': Slot) {
    Unposted(slot').Some? ==> Unposted(slot') == Unposted(slot) || (Unposted(slot).None? && Unposted(slot').value >= b.next)
  }

  ghost predicate Flows(b: Books, slot: Slot, b': Books, slot': Slot, stray: int) {
    Backed(b) && Owes(b, slot) ==>
      && Moves(b, b', TokensDue(slot') - TokensDue(slot) + stray) && Owes(b', slot')
      && PostsOnly(b, b', Unposted(slot)) && Continues(b, slot, slot')
  }

  /** The tokens of a logged approval that ends without its award. */
  function TokenStray(b: Books, slot: Slot, action: Action): int {
    if slot.Some? && (slot.value.stage.Logged? || slot.value.stage.Summed?) && Advance(b, slot, action).1.None? then TokensDue(slot) else 0
  }

  ghost predicate SameTokens(b: Books, b': Books) {
    b'.logs == b.logs && b'.ledger == b.ledger && b'.next >= b.next
  }

  lemma SameTokensMove(b: Books, b': Books)
    requires Backed(b) && SameTokens(b, b')
    ensures Moves(b, b', 0) && PostsOnly(b, b', None)
  {
    forall i: nat | i < |b'.ledger| ensures Accounting.IsBacked(b'.logs, b'.ledger[i]) {
      assert Accounting.IsBacked(b.logs, b.ledger[i]);
    }
  }

  lemma LedgerIsOlder(b: Books)
    requires Backed(b)
    ensures forall id: Id :: HasLogId(b.ledger, id) ==> id < b.next
  {
    forall id: Id | HasLogId(b.ledger, id) ensures id < b.next {
      var i: nat :| i < |b.ledger| && b.ledger[i].logId == id;
      assert Accounting.IsBacked(b.logs, b.ledger[i]);
    }
  }

  /** A new log row opens a gap of its award. */
  lemma LoggingMoves(b: Books, call: Call, result: LogResult, tokens: int, cost: int)
    requires Backed(b)
    ensures var b' := AppendLog(b, call, result, tokens, cost);
            && Moves(b, b', if result == Success && call.CallApprove? then tokens else 0) && PostsOnly(b, b', None)
            && (result == Success ==> HasOwnLog(b'.logs, call, b.next, tokens)) && !HasLogId(b'.ledger, b.next) && b'.next == b.next + 1
  {
    var row := LogRow(b.next, call.agent, ToolOf(call), result, tokens, cost);
    var b' := AppendLog(b, call, result, tokens, cost);
    LedgerIsOlder(b);
    TotalAppend(b.logs, row, AwardOf, ReversedIds(b.ledger));
    Accounting.NotReversed(b.ledger, b.next);
    forall i: nat | i < |b'.ledger| ensures Accounting.IsBacked(b'.logs, b'.ledger[i]) {
      Accounting.BackedStays(b.logs, row, b.ledger[i]);
    }
    assert b'.logs[|b.logs|] == row;
    hide ReversedIds;
  }

  lemma MovesOn(b: Books, b': Books, b'': Books, change: int, change': int)
    requires Moves(b, b', change) && Moves(b', b'', change') && PostsOnly(b, b', None) && PostsOnly(b', b'', None)
    ensures Moves(b, b'', change + change') && PostsOnly(b, b'', None)
  {
    hide Backed, TokenGap;
  }

  lemma RefusingMoves(b: Books, call: Call, reservation: Option<Id>)
    requires Backed(b)
    ensures Moves(b, Refuse(b, call, reservation).0, 0) && PostsOnly(b, Refuse(b, call, reservation).0, None)
    ensures Refuse(b, call, reservation).1 == None && Abort(b, reservation).1 == None
    ensures Moves(b, Abort(b, reservation).0, 0) && PostsOnly(b, Abort(b, reservation).0, None)
    ensures Moves(b, LogRefusal(b, call), 0) && PostsOnly(b, LogRefusal(b, call), None)
  {
    var released := SetReservation(b, reservation, Released);
    ReleasingMoves(b, reservation);
    hide SetReservation, Moves, PostsOnly, HasOwnLog, HasLogId, Backed, TokenGap, AppendLog;
    LoggingMoves(b, call, Refusal, 0, 0);
    LoggingMoves(released, call, Refusal, 0, 0);
    MovesOn(b, released, LogRefusal(released, call), 0, 0);
  }

  lemma ReleasingMoves(b: Books, reservation: Option<Id>)
    requires Backed(b)
    ensures var released := SetReservation(b, reservation, Released);
            Moves(b, released, 0) && PostsOnly(b, released, None) && Backed(released)
  {
    ReleasingSameTokens(b, reservation, Released);
    hide SetReservation, PostsOnly;
    SameTokensMove(b, SetReservation(b, reservation, Released));
  }

  lemma ReleasingSameTokens(b: Books, reservation: Option<Id>, status: ReservationStatus)
    ensures SameTokens(b, SetReservation(b, reservation, status))
  {
  }

  lemma MovesBacked(b: Books, b': Books, change: int)
    requires Moves(b, b', change)
    ensures Backed(b')
  {
  }

  /** A step that ends the run, or takes it to a stage that owes nothing. */
  lemma Ends(b: Books, slot: Slot, b': Books, slot': Slot)
    requires Backed(b) && Owes(b, slot) ==> Moves(b, b', 0) && PostsOnly(b, b', Unposted(slot))
    requires slot'.Some? ==> slot'.value.stage.Entered? || slot'.value.stage.Authorized? || slot'.value.stage.Applied? || slot'.value.stage.Flipped?
    ensures Flows(b, slot, b', slot', TokensDue(slot))
  {
    hide Moves, Backed;
  }

  /** One that goes on before anything is logged. */
  lemma GoesOn(b: Books, slot: Slot, b': Books, slot': Slot)
    requires Backed(b) && Owes(b, slot) ==> Moves(b, b', 0) && PostsOnly(b, b', None)
    requires TokensDue(slot) == 0 && TokensDue(slot') == 0 && Unposted(slot') == None
    requires Owes(b, slot) ==> Owes(b', slot')
    ensures Flows(b, slot, b', slot', 0)
  {
    hide Moves, Backed, Owes;
  }

  lemma EnteringFlows(b: Books, call: Call, now: int, prune: bool)
    ensures Flows(b, None, Entering(b, call, now, prune).0, Entering(b, call, now, prune).1, 0)
  {
    hide Permitted, Gate, LogRefusal, IsActive, Moves, Backed;
    var gated := Gate(b, call, now, prune).0;
    if Backed(b) {
      Accounting.GatesKeepMoney(b, call, now, prune, gated);
      SameTokensMove(b, gated);
      SameTokensMove(b, b);
      MovesBacked(b, gated, 0);
      RefusingMoves(gated, call, None);
      MovesOn(b, gated, LogRefusal(gated, call), 0, 0);
    }
    Ends(b, None, Entering(b, call, now, prune).0, Entering(b, call, now, prune).1);
  }

  lemma AuthorizingFlows(b: Books, call: Call)
    ensures Flows(b, Some(Flight(call, Entered)), Authorizing(b, call).0, Authorizing(b, call).1, 0)
  {
    hide Estimate, LogRefusal, Moves, Backed;
    if Backed(b) {
      RefusingMoves(b, call, None);
      if Reserve(b, Estimate(call)).Some? {
        SameTokensMove(b, Reserve(b, Estimate(call)).value.0);
      }
    }
    Ends(b, Some(Flight(call, Entered)), Authorizing(b, call).0, Authorizing(b, call).1);
  }

  lemma RefusalFlows(b: Books, slot: Slot, reservation: Option<Id>)
    requires slot.Some?
    ensures Flows(b, slot, Refuse(b, slot.value.call, reservation).0, None, TokensDue(slot))
    ensures Flows(b, slot, Abort(b, reservation).0, None, TokensDue(slot))
  {
    hide Moves, Refuse, Abort, Backed;
    if Backed(b) {
      RefusingMoves(b, slot.value.call, reservation);
    }
    Ends(b, slot, Refuse(b, slot.value.call, reservation).0, None);
    Ends(b, slot, Abort(b, reservation).0, None);
  }

  /** Work as Step 3 hands it over. */
  predicate WorkOf(call: Call, work: Work) {
    (work.Claimed? <==> call.CallApprove?) && (work.ToApprove? ==> call.CallApproveAccess?)
  }

  /** A slot that has nothing logged yet. */
  predicate Unlogged(slot: Slot) {
    slot.Some? ==> var s := slot.value.stage; s.Entered? || s.Authorized? || s.Resolved? || s.Claiming?
  }

  lemma PricedFlows(b: Books, b': Books, slot: Slot, work: Work, effects: Effects, reservation: Option<Id>)
    requires slot.Some? && Unlogged(slot) && SameTokens(b, b') && WorkOf(slot.value.call, work)
    ensures Flows(b, slot, b', Some(Flight(slot.value.call, Worked(reservation, work, effects))), 0)
  {
    hide Moves, Backed;
    if Backed(b) {
      SameTokensMove(b, b');
    }
    GoesOn(b, slot, b', Some(Flight(slot.value.call, Worked(reservation, work, effects))));
  }

  lemma UnpricedFlows(b: Books, b': Books, slot: Slot, reservation: Option<Id>)
    requires slot.Some? && Unlogged(slot) && SameTokens(b, b')
    ensures Flows(b, slot, Refuse(b', slot.value.call, reservation).0, None, 0)
  {
    hide Refuse, Moves, Backed, PostsOnly, Owes;
    var refused := Refuse(b', slot.value.call, reservation).0;
    if Backed(b) {
      SameTokensMove(b, b');
      MovesBacked(b, b', 0);
      RefusingMoves(b', slot.value.call, reservation);
      MovesOn(b, b', refused, 0, 0);
      PostsNothing(b, refused, slot);
    }
    Ends(b, slot, refused, None);
  }

  lemma PostsNothing(b: Books, b': Books, slot: Slot)
    requires PostsOnly(b, b', None)
    ensures PostsOnly(b, b', Unposted(slot))
  {
  }

  lemma PricingFlows(b: Books, b': Books, slot: Slot, work: Work, reservation: Option<Id>)
    requires slot.Some? && Unlogged(slot) && SameTokens(b, b') && WorkOf(slot.value.call, work)
    ensures var next := Pricing(b', slot.value.call, work, reservation); Flows(b, slot, next.0, next.1, 0)
  {
    hide FinalEffects, SetReservation, LogRefusal, Flows, WorkOf;
    PricedFlows(b, b', slot, work, FinalEffects(b', slot.value.call, work), reservation);
    UnpricedFlows(b, b', slot, reservation);
  }

  lemma RefusedIsNone(b: Books, call: Call, reservation: Option<Id>)
    ensures Refuse(b, call, reservation).1 == None
  {
  }

  lemma ExecutingSameTokens(b: Books, call: Call)
    requires Execute(b, call).Some? && !call.CallApprove?
    ensures SameTokens(b, Execute(b, call).value.0) && WorkOf(call, Execute(b, call).value.1)
  {
  }

  lemma WorkingFlows(b: Books, call: Call, reservation: Option<Id>, slot: Slot)
    requires slot == Some(Flight(call, Authorized(reservation)))
    ensures Flows(b, slot, Working(b, call, reservation).0, Working(b, call, reservation).1, 0)
  {
    RefusalFlows(b, slot, reservation);
    RefusedIsNone(b, call, reservation);
    if !call.CallApprove? && Execute(b, call).Some? {
      ExecutingSameTokens(b, call);
      PricingFlows(b, Execute(b, call).value.0, slot, Execute(b, call).value.1, reservation);
    } else if call.CallApprove? && ResolveDraft(b, call.target).Some? {
      ReadsOnly(b, slot, Some(Flight(call, Resolved(reservation, ResolveDraft(b, call.target).value))));
    }
    hide Flows, Refuse, Pricing, Execute, ResolveDraft;
  }

  lemma ReadsOnly(b: Books, slot: Slot, slot': Slot)
    requires slot.Some? && Unlogged(slot) && slot'.Some? && slot'.value.call == slot.value.call && slot.value.call.CallApprove?
    requires slot'.value.stage.Resolved? || slot'.value.stage.Claiming?
    ensures Flows(b, slot, b, slot', 0)
  {
    hide Backed, Moves;
    if Backed(b) {
      SameTokensMove(b, b);
    }
    GoesOn(b, slot, b, slot');
  }

  lemma Stays(b: Books, slot: Slot)
    ensures Flows(b, slot, b, slot, 0)
  {
    hide Backed, Owes, TokenGap;
    if Backed(b) {
      SameTokensMove(b, b);
    }
  }

  lemma ClaimingFlows(b: Books, call: Call, s: Stage, fails: bool, slot: Slot)
    requires slot == Some(Flight(call, s)) && Owes(b, slot)
    ensures s.Resolved? ==> Flows(b, slot, Reading(b, call, s).0, Reading(b, call, s).1, 0)
    ensures s.Claiming? ==> Flows(b, slot, Deleting(b, call, s, fails).0, Deleting(b, call, s, fails).1, 0)
  {
    if s.Resolved? {
      RefusalFlows(b, slot, s.reservation);
      if s.draft in b.pending {
        ReadsOnly(b, slot, Some(Flight(call, Claiming(s.reservation, s.draft, b.pending[s.draft]))));
      }
    }
    if s.Claiming? {
      RefusalFlows(b, slot, s.reservation);
      PricingFlows(b, b.(pending := b.pending - {s.draft}), slot, ClaimedBy(call, s.draft, s.proposer), s.reservation);
    }
    hide Flows, SetReservation, LogRefusal, Pricing;
  }

  lemma LoggedFlows(b: Books, call: Call, s: Stage, slot: Slot)
    requires s.Worked? && slot == Some(Flight(call, s))
    ensures Flows(b, slot, AppendLog(b, call, Success, s.effects.tokens, s.effects.cost),
                  Some(Flight(call, Logged(s.reservation, s.work, s.effects, b.next))), 0)
  {
    hide AppendLog, Moves, Backed, HasLogId;
    if Backed(b) && Owes(b, slot) {
      LoggingMoves(b, call, Success, s.effects.tokens, s.effects.cost);
    }
  }

  lemma LoggingFlows(b: Books, call: Call, s: Stage, fails: bool, slot: Slot)
    requires s.Worked? && slot == Some(Flight(call, s))
    ensures Flows(b, slot, Logging(b, call, s, fails).0, Logging(b, call, s, fails).1, 0)
  {
    RefusalFlows(b, slot, s.reservation);
    LoggedFlows(b, call, s, slot);
    hide Flows, SetReservation, AppendLog;
  }

  // ---- Reversals ------------------------------------------------------------------------------------------

  ghost predicate Unique(ledger: seq<LedgerRow>) {
    forall i, j :: 0 <= i < j < |ledger| ==> ledger[i].logId != ledger[j].logId
  }

  lemma {:induction false} SumReversesOne(ledger: seq<LedgerRow>, weight: LedgerRow -> int, k: nat)
    requires Unique(ledger) && k < |ledger| && ledger[k].status == Confirmed
    ensures Sum(Reverse(ledger, ledger[k].logId), weight) == Sum(ledger, weight) - weight(ledger[k])
  {
    var n := |ledger| - 1;
    var id := ledger[k].logId;
    assert Reverse(ledger, id)[..n] == Reverse(ledger[..n], id);
    if k == n {
      ReverseUnknown(ledger[..n], id);
    } else {
      SumReversesOne(ledger[..n], weight, k);
    }
  }

  lemma ReversedStays(ledger: seq<LedgerRow>, target: Id, k: nat)
    requires Unique(ledger) && k < |ledger| && ledger[k].logId == target && ledger[k].status == Reversed
    ensures Reverse(ledger, target) == ledger
  {
  }

  lemma FlipKeepsBacked(b: Books, target: Id)
    requires Backed(b)
    ensures var b' := b.(ledger := Reverse(b.ledger, target)); Backed(b') && PostsOnly(b, b', None)
  {
    var b' := b.(ledger := Reverse(b.ledger, target));
    forall i: nat | i < |b'.ledger| ensures Accounting.IsBacked(b'.logs, b'.ledger[i]) {
      assert Accounting.IsBacked(b.logs, b.ledger[i]);
      var k: nat :| k < |b.logs| && Accounting.Backs(b.logs[k], b.ledger[i]);
      assert Accounting.Backs(b.logs[k], b'.ledger[i]);
    }
    forall id: Id | HasLogId(b'.ledger, id) ensures HasLogId(b.ledger, id) {
      var i :| 0 <= i < |b'.ledger| && b'.ledger[i].logId == id;
      assert b.ledger[i].logId == id;
    }
  }

  /** A reversal takes a row's delta and its approval out alike, and does nothing the second time. */
  lemma FlipMoves(b: Books, target: Id)
    requires Backed(b)
    ensures var b' := b.(ledger := Reverse(b.ledger, target)); Moves(b, b', 0) && PostsOnly(b, b', None)
  {
    var b' := b.(ledger := Reverse(b.ledger, target));
    FlipKeepsBacked(b, target);
    assert Unique(b.ledger);
    if !HasLogId(b.ledger, target) {
      ReverseUnknown(b.ledger, target);
    } else {
      var i: nat :| i < |b.ledger| && b.ledger[i].logId == target;
      if b.ledger[i].status == Reversed {
        ReversedStays(b.ledger, target, i);
      } else {
        assert Accounting.IsBacked(b.logs, b.ledger[i]);
        ConfirmedFlips(b, i);
      }
    }
    hide Backed, Reverse;
  }

  lemma ConfirmedFlips(b: Books, i: nat)
    requires Backed(b) && i < |b.ledger| && b.ledger[i].status == Confirmed && Accounting.IsBacked(b.logs, b.ledger[i])
    ensures TokenGap(b.(ledger := Reverse(b.ledger, b.ledger[i].logId))) == TokenGap(b)
  {
    var target := b.ledger[i].logId;
    var k: nat :| k < |b.logs| && Accounting.Backs(b.logs[k], b.ledger[i]);
    assert Unique(b.ledger);
    SumReversesOne(b.ledger, PassageOf, i);
    NotYetReversed(b.ledger, i);
    assert HasLogId(b.ledger, target);
    ReversedIdsReverse(b.ledger, target);
    TotalDrops(b.logs, b.next, AwardOf, ReversedIds(b.ledger), k);
    hide ReversedIds, Reverse;
  }

  lemma NotYetReversed(ledger: seq<LedgerRow>, i: nat)
    requires Unique(ledger) && i < |ledger| && ledger[i].status == Confirmed
    ensures ledger[i].logId !in ReversedIds(ledger)
  {
  }

  // ---- Rows ------------------------------------------------------------------------------------------------

  /** A row for the run's own log. */
  lemma RowMoves(b: Books, row: LedgerRow, next: Id)
    requires Backed(b) && !HasLogId(b.ledger, row.logId) && row.status == Confirmed && Accounting.IsBacked(b.logs, row) && next >= b.next
    ensures var b' := b.(ledger := b.ledger + [row], next := next);
            Moves(b, b', -PassageOf(row)) && PostsOnly(b, b', Some(row.logId))
  {
    var b' := b.(ledger := b.ledger + [row], next := next);
    ReversedIdsAppend(b.ledger, row);
    SumAppend(b.ledger, row, PassageOf);
    forall i: nat | i < |b'.ledger| ensures Accounting.IsBacked(b'.logs, b'.ledger[i]) {
      assert i < |b.ledger| ==> Accounting.IsBacked(b.logs, b.ledger[i]);
    }
    forall id: Id | HasLogId(b'.ledger, id) ensures HasLogId(b.ledger, id) || id == row.logId {
      var i :| 0 <= i < |b'.ledger| && b'.ledger[i].logId == id;
      if i < |b.ledger| {
        assert b.ledger[i].logId == id;
      }
    }
    hide ReversedIds;
  }

  lemma OwnLogBacks(logs: seq<LogRow>, call: Call, row: LedgerRow, tokens: int)
    requires HasOwnLog(logs, call, row.logId, tokens)
    requires if row.source == Passage then call.CallApprove? && tokens == row.delta else call.CallApproveAccess?
    ensures Accounting.IsBacked(logs, row)
  {
    var k: nat :| k < |logs| && logs[k].id == row.logId && logs[k].result == Success && logs[k].tool == ToolOf(call)
                  && (call.CallApprove? ==> logs[k].tokens == tokens);
    assert Accounting.Backs(logs[k], row);
  }

  lemma OwnLogOfOthers(logs: seq<LogRow>, call: Call, logId: Id, tokens: int)
    requires HasOwnLog(logs, call, logId, tokens) && !call.CallApprove?
    ensures HasOwnLog(logs, call, logId, 0)
  {
    var k: nat :| k < |logs| && logs[k].id == logId && logs[k].result == Success && logs[k].tool == ToolOf(call);
    assert logs[k].id == logId;
  }

  // ---- Step 6 and 7 ------------------------------------------------------------------------------------------

  /** A run that keeps its own log and what it owes, and only reads. */
  lemma KeepsOwing(b: Books, slot: Slot, slot': Slot)
    requires Unposted(slot').Some? && Unposted(slot') == Unposted(slot) && TokensDue(slot') == TokensDue(slot)
    requires Owes(b, slot) ==> Owes(b, slot')
    ensures Flows(b, slot, b, slot', 0)
  {
    hide Backed, Owes, TokenGap;
    if Backed(b) {
      SameTokensMove(b, b);
    }
  }

  lemma ActingOtherwise(b: Books, call: Call, s: Stage, slot: Slot)
    requires s.Logged? && slot == Some(Flight(call, s)) && !s.work.Claimed? && !s.work.ToReverse? && Owes(b, slot)
    ensures Flows(b, slot, Acting(b, call, s, false).0, Acting(b, call, s, false).1, 0)
  {
    hide Backed, Moves, SetReservation, Resolvable, HasOwnLog;
    RefusalFlows(b, slot, s.reservation);
    OwnLogOfOthers(b.logs, call, s.logId, s.effects.tokens);
    if s.work.ToApprove? || s.work.ToReject? {
      if Resolvable(b, s.work) {
        KeepsOwing(b, slot, Some(Flight(call, Checked(s.reservation, s.work, s.logId))));
      }
    } else {
      var next := Acting(b, call, s, false);
      if Backed(b) {
        SameTokensMove(b, next.0);
      }
      Ends(b, slot, next.0, next.1);
    }
  }

  lemma ActingFlows(b: Books, call: Call, s: Stage, fails: bool, slot: Slot)
    requires s.Logged? && slot == Some(Flight(call, s)) && Owes(b, slot)
    ensures Flows(b, slot, Acting(b, call, s, fails).0, Acting(b, call, s, fails).1,
                  if fails then TokensDue(slot) else 0)
  {
    if fails {
      RefusalFlows(b, slot, s.reservation);
    } else if s.work.Claimed? {
      KeepsOwing(b, slot, Some(Flight(call, Summed(s.reservation, s.work.draft, s.work.proposer, s.effects.tokens,
                                                   Balance(b.ledger, s.work.proposer), s.logId))));
    } else if s.work.ToReverse? {
      if Backed(b) {
        FlipMoves(b, s.work.logId);
      }
      hide Backed, Moves, Reverse, PostsOnly;
      var next := Acting(b, call, s, false);
      if Backed(b) {
        PostsNothing(b, next.0, slot);
      }
      Ends(b, slot, next.0, next.1);
    } else {
      ActingOtherwise(b, call, s, slot);
    }
    hide Flows, Abort, Balance, Resolvable, Reverse;
  }

  lemma AwardFlows(b: Books, call: Call, s: Stage, slot: Slot)
    requires s.Summed? && slot == Some(Flight(call, s)) && Owes(b, slot)
    ensures Flows(b, slot, b.(ledger := b.ledger + [AwardRow(s)]), Some(Flight(call, Applied(s.reservation, s.logId))), 0)
  {
    if Backed(b) {
      OwnLogBacks(b.logs, call, AwardRow(s), s.tokens);
      RowMoves(b, AwardRow(s), b.next);
    }
    hide Backed, HasOwnLog, TokenGap;
  }

  /** The resolution of a request posts at most the fee, which is no award. */
  lemma ResolvingMoves(b: Books, call: Call, s: Stage, slot: Slot)
    requires s.Checked? && slot == Some(Flight(call, s)) && Owes(b, slot) && Backed(b) && Resolve(b, s.work, s.logId).Some?
    ensures var b' := Resolve(b, s.work, s.logId).value; Moves(b, b', 0) && PostsOnly(b, b', Some(s.logId))
  {
    var b' := Resolve(b, s.work, s.logId).value;
    ResolvedTables(b, s.work, s.logId);
    if b'.ledger != b.ledger {
      var row := b'.ledger[|b.ledger|];
      assert b'.ledger == b.ledger + [row];
      OwnLogBacks(b.logs, call, row, 0);
      RowMoves(b, row, b'.next);
      SameButAside(b.(ledger := b.ledger + [row], next := b'.next), b');
    } else {
      SameTokensMove(b, b');
    }
    hide Backed, Resolve, Owes;
  }

  lemma ResolvedTables(b: Books, work: Work, logId: Id)
    requires Resolve(b, work, logId).Some?
    ensures var b' := Resolve(b, work, logId).value;
            && b'.logs == b.logs && b'.next >= b.next
            && (b'.ledger == b.ledger
                || (work.ToApprove? && |b'.ledger| == |b.ledger| + 1 && b'.ledger[..|b.ledger|] == b.ledger
                    && var row := b'.ledger[|b.ledger|]; row.logId == logId && row.status == Confirmed && row.source == EntryFee))
  {
    hide HasPlatform, Balance;
  }

  lemma SameButAside(b: Books, b': Books)
    requires b'.logs == b.logs && b'.ledger == b.ledger && b'.next == b.next
    ensures TokenGap(b') == TokenGap(b) && (Backed(b) ==> Backed(b'))
  {
  }

  lemma FinishingFlows(b: Books, call: Call, s: Stage, fails: bool, slot: Slot)
    requires (s.Summed? || s.Checked? || s.Flipped?) && slot == Some(Flight(call, s)) && Owes(b, slot)
    ensures Flows(b, slot, Finishing(b, call, s, fails).0, Finishing(b, call, s, fails).1, if fails then TokensDue(slot) else 0)
  {
    var applied := Some(Flight(call, Applied(s.reservation, s.logId)));
    if fails || (s.Checked? && Resolve(b, s.work, s.logId).None?) {
      RefusalFlows(b, slot, s.reservation);
    } else if s.Summed? {
      AwardFlows(b, call, s, slot);
    } else if s.Checked? {
      hide Resolve, Moves, Backed;
      if Backed(b) {
        ResolvingMoves(b, call, s, slot);
      }
      Ends(b, slot, Resolve(b, s.work, s.logId).value, applied);
    } else {
      RefundFlows(b, call, s, slot);
    }
    hide Flows, SetReservation, Resolve, Refund;
  }

  lemma RefundFlows(b: Books, call: Call, s: Stage, slot: Slot)
    requires s.Flipped? && slot == Some(Flight(call, s))
    ensures Flows(b, slot, b.(counter := Refund(b.counter, s.cost)), Some(Flight(call, Applied(s.reservation, s.logId))), 0)
  {
    hide Backed, Moves, Refund;
    var b' := b.(counter := Refund(b.counter, s.cost));
    if Backed(b) {
      SameTokensMove(b, b');
      PostsNothing(b, b', slot);
    }
    Ends(b, slot, b', Some(Flight(call, Applied(s.reservation, s.logId))));
  }

  lemma SettlingFlows(b: Books, call: Call, s: Stage, fails: bool, slot: Slot)
    requires s.Applied? && slot == Some(Flight(call, s))
    ensures Flows(b, slot, Settling(b, call, s, fails).0, Settling(b, call, s, fails).1, 0)
  {
    var next := Settling(b, call, s, fails);
    SettlingSameTokens(b, call, s, fails);
    hide Backed, Moves, Estimate, RecordSpend;
    if Backed(b) {
      SameTokensMove(b, next.0);
    }
    Ends(b, slot, next.0, next.1);
  }

  lemma SettlingSameTokens(b: Books, call: Call, s: Stage, fails: bool)
    requires s.Applied?
    ensures SameTokens(b, Settling(b, call, s, fails).0)
  {
    hide Estimate;
  }

  lemma StrayIsTokens(b: Books, call: Call, s: Stage, action: Action)
    requires (s.Logged? && action.Act?) || (s.Summed? && action.Finish?)
    ensures TokenStray(b, Some(Flight(call, s)), action) == if action.fails then TokensDue(Some(Flight(call, s))) else 0
    ensures !action.fails && s.Logged? && s.work.Claimed? ==> Advance(b, Some(Flight(call, s)), action).1.Some?
  {
    hide Balance, SetReservation, Resolvable;
  }

  lemma AdvanceFlows(b: Books, slot: Slot, action: Action)
    requires Owes(b, slot)
    ensures Flows(b, slot, Advance(b, slot, action).0, Advance(b, slot, action).1, TokenStray(b, slot, action))
  {
    Stays(b, slot);
    hide Flows, Entering, Authorizing, Working, Reading, Deleting, Logging, Acting, Finishing, Settling, Owes;
    match slot
    case None =>
      if action.Enter? { EnteringFlows(b, action.call, action.now, action.prune); }
    case Some(Flight(call, s)) =>
      if action.Authorize? && s.Entered? { AuthorizingFlows(b, call); }
      if action.Work? && s.Authorized? { WorkingFlows(b, call, s.reservation, slot); }
      if action.Read? && s.Resolved? { ClaimingFlows(b, call, s, false, slot); }
      if action.Claim? && s.Claiming? { ClaimingFlows(b, call, s, action.fails, slot); }
      if action.Log? && s.Worked? { LoggingFlows(b, call, s, action.fails, slot); }
      if action.Act? && s.Logged? { StrayIsTokens(b, call, s, action); ActingFlows(b, call, s, action.fails, slot); }
      if action.Finish? && s.Summed? { StrayIsTokens(b, call, s, action); }
      if action.Finish? && (s.Summed? || s.Checked? || s.Flipped?) { FinishingFlows(b, call, s, action.fails, slot); }
      if action.Settle? && s.Applied? { SettlingFlows(b, call, s, action.fails, slot); }
  }

  // ---- All runs ------------------------------------------------------------------------------------------------

  /** The tables are backed, and every run's own log is its own. */
  ghost predicate Sound(f: Floor) {
    && Backed(f.books) && (forall i :: 0 <= i < |f.slots| ==> Owes(f.books, f.slots[i]))
    && (forall i, j :: 0 <= i < j < |f.slots| && Unposted(f.slots[i]).Some? ==> Unposted(f.slots[i]) != Unposted(f.slots[j]))
  }

  /** The tokens of the approvals that were logged and ended without their award. */
  function StrayTokens(f: Floor, moves: seq<Move>): int {
    if moves == [] then TokenGap(f.books) - Reservations.InFlight(f.slots, TokensDue)
    else
      var before, m := Replay(f, moves[..|moves| - 1]), moves[|moves| - 1];
      StrayTokens(f, moves[..|moves| - 1])
      + if m.Turn? && m.slot < |before.slots| then TokenStray(before.books, before.slots[m.slot], m.action) else 0
  }

  lemma OthersStillOwe(b: Books, b': Books, slot: Slot, other: Slot)
    requires Owes(b, other) && b.logs <= b'.logs && b'.next >= b.next && PostsOnly(b, b', Unposted(slot))
    requires Unposted(other).Some? ==> Unposted(other) != Unposted(slot)
    ensures Owes(b', other)
  {
    if other.Some? {
      var call, s := other.value.call, other.value.stage;
      if s.Logged? { OwnLogStays(b.logs, b'.logs, call, s.logId, s.effects.tokens); }
      if s.Summed? { OwnLogStays(b.logs, b'.logs, call, s.logId, s.tokens); }
      if s.Checked? { OwnLogStays(b.logs, b'.logs, call, s.logId, 0); }
    }
    hide HasOwnLog, HasLogId;
  }

  lemma OwnLogStays(logs: seq<LogRow>, logs': seq<LogRow>, call: Call, logId: Id, tokens: int)
    requires logs <= logs'
    ensures HasOwnLog(logs, call, logId, tokens) ==> HasOwnLog(logs', call, logId, tokens)
  {
    if HasOwnLog(logs, call, logId, tokens) {
      var k: nat :| k < |logs| && logs[k].id == logId && logs[k].result == Success && logs[k].tool == ToolOf(call)
                    && (call.CallApprove? ==> logs[k].tokens == tokens);
      assert logs'[k] == logs[k];
    }
  }

  lemma LogsStayApart(f: Floor, k: nat, b': Books, slots': seq<Slot>)
    requires Sound(f) && k < |f.slots| == |slots'| && slots' == f.slots[k := slots'[k]] && Continues(f.books, f.slots[k], slots'[k])
    ensures forall i, j :: 0 <= i < j < |slots'| && Unposted(slots'[i]).Some? ==> Unposted(slots'[i]) != Unposted(slots'[j])
  {
    forall i | 0 <= i < |f.slots| && Unposted(f.slots[i]).Some? ensures Unposted(f.slots[i]).value < f.books.next {
      assert Owes(f.books, f.slots[i]);
    }
    hide Unposted, Owes, Backed;
  }

  lemma ReservationsAside(b: Books, b': Books)
    requires b' == b.(reservations := b'.reservations)
    ensures (Backed(b') <==> Backed(b)) && TokenGap(b') == TokenGap(b)
    ensures forall slot :: Owes(b', slot) <==> Owes(b, slot)
  {
  }

  lemma AdvancedFlows(b: Books, slot: Slot, action: Action, lost: bool)
    requires Owes(b, slot)
    ensures Flows(b, slot, Advanced(b, slot, action, lost).0, Advanced(b, slot, action, lost).1, TokenStray(b, slot, action))
  {
    AdvanceFlows(b, slot, action);
    AdvancedIsAdvance(b, slot, action, lost);
    hide Advance, Advanced, TokenStray, Backed, Owes, TokenGap, HasLogId, TokensDue, Unposted;
    ReservationsAside(Advance(b, slot, action).0, Advanced(b, slot, action, lost).0);
  }

  lemma TurnFlows(f: Floor, k: nat, action: Action, lost: bool)
    requires Sound(f) && k < |f.slots|
    ensures var f' := Step(f, Turn(k, action, lost));
            && Sound(f')
            && TokenGap(f'.books) - Reservations.InFlight(f'.slots, TokensDue)
               == TokenGap(f.books) - Reservations.InFlight(f.slots, TokensDue) + TokenStray(f.books, f.slots[k], action)
  {
    var slot, f' := f.slots[k], Step(f, Turn(k, action, lost));
    assert Owes(f.books, slot);
    AdvancedFlows(f.books, slot, action, lost);
    Reservations.InFlightUpdates(f.slots, TokensDue, k, f'.slots[k]);
    hide Advanced, Owes, Backed, TokenGap, TokenStray, PostsOnly, Unposted, TokensDue;
    LogsStayApart(f, k, f'.books, f'.slots);
    forall i | 0 <= i < |f'.slots| ensures Owes(f'.books, f'.slots[i]) {
      if i != k {
        assert Owes(f.books, f.slots[i]);
        assert Unposted(f.slots[if i < k then i else k]).Some? ==>
                 Unposted(f.slots[if i < k then i else k]) != Unposted(f.slots[if i < k then k else i]);
        OthersStillOwe(f.books, f'.books, slot, f.slots[i]);
      }
    }
  }

  lemma OthersStaySound(f: Floor, m: Move)
    requires Sound(f) && (!m.Turn? || m.slot >= |f.slots|)
    ensures Sound(Step(f, m)) && TokenGap(Step(f, m).books) == TokenGap(f.books) && Step(f, m).slots == f.slots
  {
    var f' := Step(f, m);
    hide Step, TokenGap, HasOwnLog, HasLogId;
    BesideTheRuns(f, m);
    SameButAside(f.books, f'.books);
    forall i | 0 <= i < |f'.slots| ensures Owes(f'.books, f'.slots[i]) {
      assert Owes(f.books, f.slots[i]);
    }
    hide Backed, Owes, Unposted;
  }

  /** Main result, tokens: in every interleaving the un-rejected approvals of the log exceed the confirmed awards by exactly
    * what runs in flight have logged and not yet posted, plus what was logged by runs that ended without their award. */
  lemma {:induction false} TokensAreDueOrStray(f: Floor, moves: seq<Move>)
    requires Sound(f)
    ensures Sound(Replay(f, moves))
    ensures TokenGap(Replay(f, moves).books) == Reservations.InFlight(Replay(f, moves).slots, TokensDue) + StrayTokens(f, moves)
  {
    hide Sound, Step, TokenGap, TokenStray, TokensDue;
    if moves != [] {
      var before, m := Replay(f, moves[..|moves| - 1]), moves[|moves| - 1];
      TokensAreDueOrStray(f, moves[..|moves| - 1]);
      if m.Turn? && m.slot < |before.slots| {
        TurnFlows(before, m.slot, m.action, m.lost);
      } else {
        OthersStaySound(before, m);
      }
    }
  }

  /** Once every run has ended, the confirmed balances are the un-rejected approvals minus the un-rejected entry fees exactly
    * when no logged approval ended without its award. */
  lemma BalancesAgreeIff(f: Floor, moves: seq<Move>)
    requires Sound(f) && forall i :: 0 <= i < |Replay(f, moves).slots| ==> Replay(f, moves).slots[i] == None
    ensures var b := Replay(f, moves).books;
            Sum(b.ledger, DeltaOf) == Total(b.logs, AwardOf, ReversedIds(b.ledger)) - Sum(b.ledger, FeeOf)
            <==> StrayTokens(f, moves) == 0
  {
    TokensAreDueOrStray(f, moves);
    Reservations.NothingInFlight(Replay(f, moves).slots, TokensDue);
    BalancesAreAwardsLessFees(Replay(f, moves).books.ledger);
    hide Replay, StrayTokens, Sound, Sum, Total, ReversedIds;
  }
}
