/** Counter and audit log when runs interleave: the gap is what is due in flight plus what went astray since the counter
  * was last written as a whole. */
module Reconciliation {
  import opened Common
  import opened Books
  import opened Sums
  import opened Engine
  import opened Interleaving
  import opened Reservations
  import opened Accounting
  import opened Drift
  import opened Witnesses

  /** The part of the gap a run in flight accounts for: a logged cost not yet charged, or a reversal not yet refunded. */
  function Due(slot: Slot): int {
    match slot
    case None => 0
    case Some(Flight(call, s)) =>
      if s.Logged? || s.Summed? || s.Checked? || s.Applied? then LoggedCost(call)
      else if s.Flipped? then -s.cost
      else 0
  }

  function ShortRefund(counter: Option<Counter>, cost: int): int {
    if counter.None? then 0 else RefundDrift(counter.value, cost)
  }

  /** What a step of a run adds to the gap beyond what is due: an orphaned or unsettled cost, a second reversal of the same
    * row, a refund that failed or was clamped, a logged cost other than the one charged. */
  function StrayOf(b: Books, slot: Slot, action: Action): int {
    match slot
    case None => 0
    case Some(Flight(call, s)) =>
      if s.Logged? && action.Act? && s.work.ToReverse? && !action.fails then
        if s.work.logId in ReversedIds(b.ledger) then Positive(s.work.cost) else Positive(-s.work.cost)
      else if s.Flipped? && action.Finish? then
        if action.fails then -s.cost else ShortRefund(b.counter, s.cost)
      else if s.Applied? && action.Settle? then
        if action.fails && Estimate(call) > 0 then LoggedCost(call) else LoggedCost(call) - Positive(Estimate(call))
      else if (s.Logged? || s.Summed? || s.Checked?) && Advance(b, slot, action).1.None? then LoggedCost(call)
      else 0
  }

  /** What is astray right after a write of the whole counter: what the log grew since its total was read, less what is due
    * in flight. A counter is created at zero. */
  function Rebased(f: Floor, total: int): int {
    RebuiltSpend(f.books.logs, f.books.ledger) - total - InFlight(f.slots, Due)
  }

  function StrayAfter(f: Floor, m: Move, before: int): int {
    match m
    case Turn(k, action, _) =>
      before + if f.books.counter.Some? && k < |f.slots| then StrayOf(f.books, f.slots[k], action) else 0
    case SetBudget(_) => if f.books.counter.None? then Rebased(f, 0) else before
    case ReadTotal => before
    case WriteTotal(i) => if i < |f.totals| && f.books.counter.Some? then Rebased(f, f.totals[i]) else before
  }

  /** What is astray after these moves. */
  function Strays(f: Floor, moves: seq<Move>): int {
    if moves == [] then if f.books.counter.Some? then Gap(f.books) - InFlight(f.slots, Due) else 0
    else StrayAfter(Replay(f, moves[..|moves| - 1]), moves[|moves| - 1], Strays(f, moves[..|moves| - 1]))
  }

  // ---- What the tables keep ---------------------------------------------------------------------

  ghost predicate IsLogged(logs: seq<LogRow>, id: Id) {
    exists k: nat :: k < |logs| && logs[k].id == id && logs[k].result == Success
  }

  /** Log ids are ordered, and ledger rows point to success rows. */
  ghost predicate Sound(b: Books) {
    LogsOrdered(b.logs, b.next) && forall i :: 0 <= i < |b.ledger| ==> IsLogged(b.logs, b.ledger[i].logId)
  }

  /** What a run in flight knows about the tables. */
  ghost predicate Placed(b: Books, slot: Slot) {
    slot.Some? ==>
      var Flight(call, s) := slot.value;
      && (call.CallReject? ==> HasLogId(b.ledger, call.logId))
      && (s.Worked? || s.Logged? ==>
            s.effects.cost == LoggedCost(call)
            && (s.work.ToReverse? ==> call.CallReject? && s.work.logId == call.logId && s.work.cost == CostOfLog(b.logs, call.logId)))
      && (s.Logged? || s.Summed? || s.Checked? ==> IsLogged(b.logs, s.logId))
      && (s.Flipped? ==> call.CallReject? && s.cost > 0)
  }

  /** Logs are only added, and ledger rows never go. */
  ghost predicate Later(b: Books, b': Books) {
    b.logs <= b'.logs && forall id :: HasLogId(b.ledger, id) ==> HasLogId(b'.ledger, id)
  }

  lemma LaterKeepsPlace(b: Books, b': Books, slot: Slot)
    requires Sound(b) && Sound(b') && Later(b, b') && Placed(b, slot)
    ensures Placed(b', slot)
  {
    if slot.Some? {
      var call, s := slot.value.call, slot.value.stage;
      if s.Logged? || s.Summed? || s.Checked? {
        var k: nat :| k < |b.logs| && b.logs[k].id == s.logId && b.logs[k].result == Success;
        assert b'.logs[k] == b.logs[k];
      }
      if call.CallReject? {
        var i :| 0 <= i < |b.ledger| && b.ledger[i].logId == call.logId;
        var k: nat :| k < |b.logs| && b.logs[k].id == call.logId && b.logs[k].result == Success;
        LookupFinds(b.logs, b.next, k);
        assert b'.logs[k] == b.logs[k];
        LookupFinds(b'.logs, b'.next, k);
      }
    }
  }

  // ---- One step ---------------------------------------------------------------------------------

  /** The gap, with no counter to compare. */
  function GapOf(b: Books): int {
    if b.counter.Some? then Gap(b) else 0
  }

  /** Soundness, and a change of the gap where there is a counter. */
  ghost predicate Moves(b: Books, b': Books, change: int) {
    && Sound(b') && Later(b, b') && (b'.counter.Some? <==> b.counter.Some?)
    && (b.counter.Some? ==> GapOf(b') == GapOf(b) + change)
  }

  /** What each step guarantees. */
  ghost predicate Accounts(b: Books, slot: Slot, b': Books, slot': Slot, stray: int) {
    Sound(b) && Placed(b, slot) ==> Moves(b, b', Due(slot') - Due(slot) + stray) && Placed(b', slot')
  }

  lemma SameMoneyMoves(b: Books, b': Books)
    requires SameMoney(b, b') && Sound(b)
    ensures Moves(b, b', 0)
  {
  }

  lemma MovesOn(b: Books, b': Books, b'': Books, change: int, change': int)
    requires Moves(b, b', change) && Moves(b', b'', change')
    ensures Moves(b, b'', change + change')
  {
    hide Sound, GapOf;
  }

  lemma LoggingMoves(b: Books, call: Call, result: LogResult, tokens: int, cost: int)
    requires Sound(b)
    ensures var b' := AppendLog(b, call, result, tokens, cost);
            && Moves(b, b', if result == Success then cost else 0)
            && (result == Success ==> IsLogged(b'.logs, b.next))
  {
    var row := LogRow(b.next, call.agent, ToolOf(call), result, tokens, cost);
    var b' := AppendLog(b, call, result, tokens, cost);
    TotalAppend(b.logs, row, CostOf, ReversedIds(b.ledger));
    forall i | 0 <= i < |b.ledger| ensures IsLogged(b'.logs, b'.ledger[i].logId) && b.ledger[i].logId < b.next {
      var k: nat :| k < |b.logs| && b.logs[k].id == b.ledger[i].logId && b.logs[k].result == Success;
      assert b'.logs[k] == b.logs[k];
    }
    assert b'.logs[|b.logs|] == row;
  }

  /** Releasing a reservation and logging a refusal are free. */
  lemma RefusingMoves(b: Books, call: Call, reservation: Option<Id>)
    requires Sound(b)
    ensures Moves(b, Refuse(b, call, reservation).0, 0) && Refuse(b, call, reservation).1 == None
    ensures Moves(b, Abort(b, reservation).0, 0) && Abort(b, reservation).1 == None
    ensures Moves(b, LogRefusal(b, call), 0)
  {
    var released := SetReservation(b, reservation, Released);
    ReservationKeepsMoney(b, reservation, Released);
    SameMoneyMoves(b, released);
    assert Sound(released);
    hide SetReservation, Sound, GapOf, AppendLog;
    LoggingMoves(b, call, Refusal, 0, 0);
    LoggingMoves(released, call, Refusal, 0, 0);
    MovesOn(b, released, LogRefusal(released, call), 0, 0);
  }

  lemma MovesSound(b: Books, b': Books, change: int)
    requires Moves(b, b', change)
    ensures Sound(b') && Later(b, b')
  {
  }

  lemma ConfirmedHasLogId(b: Books, call: Call)
    requires Permitted(b, call) && call.CallReject?
    ensures HasLogId(b.ledger, call.logId)
  {
  }

  lemma EnteringAccounts(b: Books, call: Call, now: int, prune: bool)
    ensures Accounts(b, None, Entering(b, call, now, prune).0, Entering(b, call, now, prune).1, 0)
  {
    hide Permitted, Gate, LogRefusal, IsActive, Moves, Sound;
    if Sound(b) {
      var gated := Gate(b, call, now, prune).0;
      GatesKeepMoney(b, call, now, prune, gated);
      SameMoneyMoves(b, gated);
      SameMoneyMoves(b, b);
      MovesSound(b, gated, 0);
      RefusingMoves(gated, call, None);
      MovesOn(b, gated, LogRefusal(gated, call), 0, 0);
      if Permitted(gated, call) && call.CallReject? {
        ConfirmedHasLogId(gated, call);
      }
    }
  }

  lemma AuthorizingAccounts(b: Books, call: Call)
    ensures Accounts(b, Some(Flight(call, Entered)), Authorizing(b, call).0, Authorizing(b, call).1, 0)
  {
    hide Sound, Moves, LogRefusal, Estimate;
    if Sound(b) {
      RefusingMoves(b, call, None);
      if Reserve(b, Estimate(call)).Some? {
        SameMoneyMoves(b, Reserve(b, Estimate(call)).value.0);
      }
    }
  }

  /** A refused step after the gate. */
  lemma RefusalAccounts(b: Books, slot: Slot, reservation: Option<Id>)
    requires slot.Some?
    ensures Accounts(b, slot, Refuse(b, slot.value.call, reservation).0, None, Due(slot))
    ensures Accounts(b, slot, Abort(b, reservation).0, None, Due(slot))
  {
    hide Moves, Refuse, Abort, Sound;
    if Sound(b) {
      RefusingMoves(b, slot.value.call, reservation);
    }
  }

  lemma ExecuteKeepsMoney(b: Books, call: Call)
    requires Execute(b, call).Some?
    ensures SameMoney(b, Execute(b, call).value.0)
    ensures var work := Execute(b, call).value.1;
            work.ToReverse? ==> call.CallReject? && work == ToReverse(call.logId, CostOfLog(b.logs, call.logId))
  {
  }

  /** A slot that has nothing logged yet. */
  predicate Unlogged(slot: Slot) {
    slot.Some? ==> var s := slot.value.stage; s.Entered? || s.Authorized? || s.Resolved? || s.Claiming? || s.Worked?
  }

  /** Work as Step 3 hands it over. */
  predicate WorkOf(b: Books, call: Call, work: Work) {
    work.ToReverse? ==> call.CallReject? && work == ToReverse(call.logId, CostOfLog(b.logs, call.logId))
  }

  lemma PricedAccounts(b: Books, b': Books, slot: Slot, work: Work, effects: Effects, reservation: Option<Id>)
    requires slot.Some? && Unlogged(slot) && SameMoney(b, b') && WorkOf(b, slot.value.call, work)
    requires effects.cost == LoggedCost(slot.value.call)
    ensures Accounts(b, slot, b', Some(Flight(slot.value.call, Worked(reservation, work, effects))), 0)
  {
    hide LoggedCost, Sound, Moves;
    if Sound(b) {
      SameMoneyMoves(b, b');
    }
  }

  lemma UnpricedAccounts(b: Books, b': Books, slot: Slot, reservation: Option<Id>)
    requires slot.Some? && Unlogged(slot) && SameMoney(b, b')
    ensures Accounts(b, slot, Refuse(b', slot.value.call, reservation).0, None, 0)
  {
    var call := slot.value.call;
    hide Sound, Moves, Refuse, LoggedCost;
    if Sound(b) {
      SameMoneyMoves(b, b');
      MovesSound(b, b', 0);
      RefusingMoves(b', call, reservation);
      MovesOn(b, b', Refuse(b', call, reservation).0, 0, 0);
    }
  }

  lemma PricingAccounts(b: Books, b': Books, slot: Slot, work: Work, reservation: Option<Id>)
    requires slot.Some? && Unlogged(slot) && SameMoney(b, b') && WorkOf(b, slot.value.call, work)
    ensures var next := Pricing(b', slot.value.call, work, reservation); Accounts(b, slot, next.0, next.1, 0)
  {
    var call := slot.value.call;
    hide FinalEffects, LogRefusal, SetReservation, Accounts, LoggedCost, WorkOf;
    EffectsCostLogged(b', call, work);
    PricedAccounts(b, b', slot, work, FinalEffects(b', call, work), reservation);
    UnpricedAccounts(b, b', slot, reservation);
  }

  lemma WorkingAccounts(b: Books, call: Call, reservation: Option<Id>, slot: Slot)
    requires slot == Some(Flight(call, Authorized(reservation)))
    ensures Accounts(b, slot, Working(b, call, reservation).0, Working(b, call, reservation).1, 0)
  {
    RefusalAccounts(b, slot, reservation);
    ReadingAccounts(b, slot);
    if Execute(b, call).Some? {
      ExecuteKeepsMoney(b, call);
      PricingAccounts(b, Execute(b, call).value.0, slot, Execute(b, call).value.1, reservation);
    }
    hide Accounts, Refuse, Pricing, Execute, ResolveDraft;
    if call.CallApprove? && ResolveDraft(b, call.target).Some? {
      NothingWritten(b, slot, Some(Flight(call, Resolved(reservation, ResolveDraft(b, call.target).value))));
    }
  }

  lemma ReadingAccounts(b: Books, slot: Slot)
    ensures Accounts(b, slot, b, slot, 0)
  {
    hide Sound;
    if Sound(b) {
      SameMoneyMoves(b, b);
    }
  }

  /** A step that only reads, before anything is logged. */
  lemma NothingWritten(b: Books, slot: Slot, slot': Slot)
    requires Unlogged(slot) && slot.Some? && slot'.Some? && slot'.value.call == slot.value.call
    requires slot'.value.stage.Resolved? || slot'.value.stage.Claiming?
    ensures Accounts(b, slot, b, slot', 0)
  {
    hide Sound, LoggedCost;
    if Sound(b) {
      SameMoneyMoves(b, b);
    }
  }

  lemma ClaimingAccounts(b: Books, call: Call, s: Stage, fails: bool, slot: Slot)
    requires slot == Some(Flight(call, s))
    ensures s.Resolved? ==> Accounts(b, slot, Reading(b, call, s).0, Reading(b, call, s).1, 0)
    ensures s.Claiming? ==> Accounts(b, slot, Deleting(b, call, s, fails).0, Deleting(b, call, s, fails).1, 0)
  {
    if s.Resolved? {
      RefusalAccounts(b, slot, s.reservation);
      if s.draft in b.pending {
        NothingWritten(b, slot, Some(Flight(call, Claiming(s.reservation, s.draft, b.pending[s.draft]))));
      }
    }
    if s.Claiming? {
      RefusalAccounts(b, slot, s.reservation);
      PricingAccounts(b, b.(pending := b.pending - {s.draft}), slot, ClaimedBy(call, s.draft, s.proposer), s.reservation);
    }
    hide Accounts, Refuse, Pricing;
  }

  lemma LoggedAccounts(b: Books, call: Call, s: Stage, slot: Slot)
    requires s.Worked? && slot == Some(Flight(call, s))
    ensures Accounts(b, slot, AppendLog(b, call, Success, s.effects.tokens, s.effects.cost),
                     Some(Flight(call, Logged(s.reservation, s.work, s.effects, b.next))), 0)
  {
    hide Sound, AppendLog, Moves, LoggedCost;
    if Sound(b) && Placed(b, slot) {
      var logged := AppendLog(b, call, Success, s.effects.tokens, s.effects.cost);
      LoggingMoves(b, call, Success, s.effects.tokens, s.effects.cost);
      MovesSound(b, logged, s.effects.cost);
      LaterKeepsPlace(b, logged, slot);
    }
  }

  lemma LoggingAccounts(b: Books, call: Call, s: Stage, fails: bool, slot: Slot)
    requires s.Worked? && slot == Some(Flight(call, s))
    ensures Accounts(b, slot, Logging(b, call, s, fails).0, Logging(b, call, s, fails).1, 0)
  {
    RefusalAccounts(b, slot, s.reservation);
    LoggedAccounts(b, call, s, slot);
    hide Accounts, SetReservation, AppendLog;
  }

  /** Reversing a logged row takes its cost out of the rebuilt total, once. */
  lemma FlipMoves(b: Books, target: Id)
    requires Sound(b) && HasLogId(b.ledger, target)
    ensures Moves(b, b.(ledger := Post(b.ledger, Reversal(target))),
                  if target in ReversedIds(b.ledger) then 0 else -CostOfLog(b.logs, target))
  {
    var b' := b.(ledger := Post(b.ledger, Reversal(target)));
    var i :| 0 <= i < |b.ledger| && b.ledger[i].logId == target;
    assert IsLogged(b.logs, b.ledger[i].logId);
    var k: nat :| k < |b.logs| && b.logs[k].id == target && b.logs[k].result == Success;
    ReversedIdsReverse(b.ledger, target);
    LookupFinds(b.logs, b.next, k);
    if target in ReversedIds(b.ledger) {
      assert ReversedIds(b.ledger) + {target} == ReversedIds(b.ledger);
    } else {
      TotalDrops(b.logs, b.next, CostOf, ReversedIds(b.ledger), k);
    }
    forall j | 0 <= j < |b'.ledger| ensures IsLogged(b'.logs, b'.ledger[j].logId) {
      assert b'.ledger[j].logId == b.ledger[j].logId;
    }
    forall id | HasLogId(b.ledger, id) ensures HasLogId(b'.ledger, id) {
      var j :| 0 <= j < |b.ledger| && b.ledger[j].logId == id;
      assert b'.ledger[j].logId == id;
    }
  }

  /** Other steps of Step 6 add at most one row, for the run's own log. */
  ghost predicate AddsOwnRow(b: Books, b': Books, logId: Id) {
    && b'.logs == b.logs && b'.next >= b.next && b'.counter == b.counter
    && (b'.ledger == b.ledger
        || (|b'.ledger| == |b.ledger| + 1 && b'.ledger[..|b.ledger|] == b.ledger
            && b'.ledger[|b.ledger|].logId == logId && b'.ledger[|b.ledger|].status == Confirmed))
  }

  lemma OwnRowMoves(b: Books, b': Books, logId: Id)
    requires Sound(b) && IsLogged(b.logs, logId) && AddsOwnRow(b, b', logId)
    ensures Moves(b, b', 0)
  {
    if b'.ledger != b.ledger {
      var row := b'.ledger[|b.ledger|];
      assert b'.ledger == b.ledger + [row];
      ReversedIdsAppend(b.ledger, row);
    }
    forall i | 0 <= i < |b'.ledger| ensures IsLogged(b'.logs, b'.ledger[i].logId) {
      assert i < |b.ledger| ==> b'.ledger[i] == b.ledger[i];
    }
    forall id | HasLogId(b.ledger, id) ensures HasLogId(b'.ledger, id) {
      var j :| 0 <= j < |b.ledger| && b.ledger[j].logId == id;
      assert b'.ledger[j].logId == id;
    }
    hide ReversedIds;
  }

  lemma ResolvingAddsOwnRow(b: Books, work: Work, logId: Id)
    requires Resolve(b, work, logId).Some?
    ensures AddsOwnRow(b, Resolve(b, work, logId).value, logId)
  {
    hide HasPlatform, Balance;
  }

  /** A run that keeps its log row's cost due. */
  lemma StaysDue(b: Books, b': Books, slot: Slot, stage': Stage)
    requires slot.Some? && Sound(b) && Placed(b, slot) && Moves(b, b', 0)
    requires slot.value.stage.Logged? || slot.value.stage.Summed? || slot.value.stage.Checked?
    requires stage'.Applied? || ((stage'.Summed? || stage'.Checked?) && stage'.logId == slot.value.stage.logId)
    ensures Accounts(b, slot, b', Some(Flight(slot.value.call, stage')), 0)
  {
    hide Moves, Sound, LoggedCost;
    MovesSound(b, b', 0);
    LaterKeepsPlace(b, b', slot);
  }

  lemma ReversingAccounts(b: Books, call: Call, s: Stage, slot: Slot)
    requires s.Logged? && slot == Some(Flight(call, s)) && s.work.ToReverse?
    ensures var next := Acting(b, call, s, false);
            Accounts(b, slot, next.0, next.1,
                     if s.work.logId in ReversedIds(b.ledger) then Positive(s.work.cost) else Positive(-s.work.cost))
  {
    hide Sound, Moves, ReversedIds, Reverse, SetReservation;
    if Sound(b) && Placed(b, slot) {
      PlainCost(call);
      FlipMoves(b, call.logId);
      var b' := b.(ledger := Post(b.ledger, Reversal(s.work.logId)));
      MovesSound(b, b', if call.logId in ReversedIds(b.ledger) then 0 else -CostOfLog(b.logs, call.logId));
      LaterKeepsPlace(b, b', slot);
    }
  }

  lemma ActingAccounts(b: Books, call: Call, s: Stage, fails: bool, slot: Slot)
    requires s.Logged? && slot == Some(Flight(call, s)) && (fails || !s.work.ToReverse?)
    ensures var next := Acting(b, call, s, fails);
            Accounts(b, slot, next.0, next.1, if next.1.None? then LoggedCost(call) else 0)
  {
    RefusalAccounts(b, slot, s.reservation);
    if Sound(b) && Placed(b, slot) {
      hide Sound, Moves, Placed, Accounts, Abort, Balance, Resolvable;
      SameMoneyMoves(b, b);
      if !fails && s.work.Claimed? {
        StaysDue(b, b, slot, Summed(s.reservation, s.work.draft, s.work.proposer, s.effects.tokens, Balance(b.ledger, s.work.proposer), s.logId));
      }
      StaysDue(b, b, slot, Checked(s.reservation, s.work, s.logId));
      StaysDue(b, b, slot, Applied(s.reservation, s.logId));
      if s.work.Drafted? {
        var pended := b.(pending := b.pending[s.work.draft := call.agent]);
        SameMoneyMoves(b, pended);
        StaysDue(b, pended, slot, Applied(s.reservation, s.logId));
      }
    } else {
      hide Acting, Sound, Placed;
    }
  }

  /** The award's row, or the resolution of a request. */
  lemma FinishingAccounts(b: Books, call: Call, s: Stage, fails: bool, slot: Slot)
    requires (s.Summed? || s.Checked?) && slot == Some(Flight(call, s))
    ensures var next := Finishing(b, call, s, fails);
            Accounts(b, slot, next.0, next.1, if next.1.None? then LoggedCost(call) else 0)
  {
    RefusalAccounts(b, slot, s.reservation);
    if Sound(b) && Placed(b, slot) {
      assert IsLogged(b.logs, s.logId);
      hide Sound, Moves, Placed, Accounts, SetReservation, Resolve, LoggedCost;
      if s.Summed? {
        var b' := b.(ledger := b.ledger + [AwardRow(s)]);
        OwnRowMoves(b, b', s.logId);
        StaysDue(b, b', slot, Applied(s.reservation, s.logId));
      } else if Resolve(b, s.work, s.logId).Some? {
        var b' := Resolve(b, s.work, s.logId).value;
        ResolvingAddsOwnRow(b, s.work, s.logId);
        OwnRowMoves(b, b', s.logId);
        StaysDue(b, b', slot, Applied(s.reservation, s.logId));
      }
    } else {
      hide Finishing, Sound, Placed;
    }
  }

  lemma RefundMoves(b: Books, cost: int)
    requires Sound(b) && cost > 0
    ensures Moves(b, b.(counter := Refund(b.counter, cost)), cost + ShortRefund(b.counter, cost))
  {
    hide RebuiltSpend;
  }

  lemma RefundingAccounts(b: Books, call: Call, s: Stage, fails: bool, slot: Slot)
    requires s.Flipped? && slot == Some(Flight(call, s))
    ensures Accounts(b, slot, Finishing(b, call, s, fails).0, Finishing(b, call, s, fails).1,
                     if fails then -s.cost else ShortRefund(b.counter, s.cost))
  {
    RefusalAccounts(b, slot, s.reservation);
    hide SetReservation, LoggedCost, Sound, Moves, Refund, ShortRefund, HasLogId;
    if Sound(b) && Placed(b, slot) && !fails {
      PlainCost(call);
      RefundMoves(b, s.cost);
    }
  }

  lemma ChargeMoves(b: Books, estimate: int, reservation: Option<Id>, logId: Id)
    requires Sound(b)
    ensures Moves(b, RecordSpend(b, estimate, reservation, logId), -Positive(estimate))
  {
    hide SetReservation;
    var charged := b.(counter := Charge(b.counter, estimate));
    ReservationKeepsMoney(charged, reservation, Settled(logId));
  }

  lemma SettlingAccounts(b: Books, call: Call, s: Stage, fails: bool, slot: Slot)
    requires s.Applied? && slot == Some(Flight(call, s))
    ensures Accounts(b, slot, Settling(b, call, s, fails).0, Settling(b, call, s, fails).1,
                     if fails && Estimate(call) > 0 then LoggedCost(call) else LoggedCost(call) - Positive(Estimate(call)))
  {
    hide Estimate, LoggedCost, RecordSpend, Sound, Moves;
    if Sound(b) {
      SameMoneyMoves(b, b);
      ChargeMoves(b, Estimate(call), s.reservation, s.logId);
    }
  }

  lemma AdvanceAccounts(b: Books, slot: Slot, action: Action)
    ensures Accounts(b, slot, Advance(b, slot, action).0, Advance(b, slot, action).1, StrayOf(b, slot, action))
  {
    ReadingAccounts(b, slot);
    hide Accounts, Entering, Authorizing, Working, Reading, Deleting, Logging, Acting, Finishing, Settling, Estimate, LoggedCost,
         ReversedIds, ShortRefund;
    match slot
    case None =>
      if action.Enter? { EnteringAccounts(b, action.call, action.now, action.prune); }
    case Some(Flight(call, s)) =>
      if action.Authorize? && s.Entered? { AuthorizingAccounts(b, call); }
      if action.Work? && s.Authorized? { WorkingAccounts(b, call, s.reservation, slot); }
      if action.Read? && s.Resolved? { ClaimingAccounts(b, call, s, false, slot); }
      if action.Claim? && s.Claiming? { ClaimingAccounts(b, call, s, action.fails, slot); }
      if action.Log? && s.Worked? { LoggingAccounts(b, call, s, action.fails, slot); }
      if action.Act? && s.Logged? {
        if s.work.ToReverse? && !action.fails { ReversingAccounts(b, call, s, slot); }
        else { ActingAccounts(b, call, s, action.fails, slot); }
      }
      if action.Finish? && (s.Summed? || s.Checked?) { FinishingAccounts(b, call, s, action.fails, slot); }
      if action.Finish? && s.Flipped? { RefundingAccounts(b, call, s, action.fails, slot); }
      if action.Settle? && s.Applied? { SettlingAccounts(b, call, s, action.fails, slot); }
  }

  // ---- All runs ---------------------------------------------------------------------------------

  ghost predicate Orderly(f: Floor) {
    Sound(f.books) && forall i :: 0 <= i < |f.slots| ==> Placed(f.books, f.slots[i])
  }

  /** The gap is what is due and what is astray. */
  ghost predicate Reconciled(f: Floor, astray: int) {
    f.books.counter.Some? ==> GapOf(f.books) == InFlight(f.slots, Due) + astray
  }

  lemma ReservationsAside(b: Books, b': Books)
    requires b' == b.(reservations := b'.reservations)
    ensures (Sound(b') <==> Sound(b)) && GapOf(b') == GapOf(b)
    ensures forall slot :: Placed(b', slot) <==> Placed(b, slot)
  {
  }

  lemma AdvancedAccounts(b: Books, slot: Slot, action: Action, lost: bool)
    ensures Accounts(b, slot, Advanced(b, slot, action, lost).0, Advanced(b, slot, action, lost).1, StrayOf(b, slot, action))
  {
    AdvanceAccounts(b, slot, action);
    AdvancedIsAdvance(b, slot, action, lost);
    hide Advance, Advanced, StrayOf, Sound, Placed, GapOf, Due;
    ReservationsAside(Advance(b, slot, action).0, Advanced(b, slot, action, lost).0);
  }

  lemma TurnReconciles(f: Floor, k: nat, action: Action, lost: bool, astray: int)
    requires Orderly(f) && Reconciled(f, astray)
    ensures var m := Turn(k, action, lost); Orderly(Step(f, m)) && Reconciled(Step(f, m), StrayAfter(f, m, astray))
  {
    if k < |f.slots| {
      var slot := f.slots[k];
      var f' := Step(f, Turn(k, action, lost));
      assert Placed(f.books, slot);
      AdvancedAccounts(f.books, slot, action, lost);
      InFlightUpdates(f.slots, Due, k, f'.slots[k]);
      hide Advanced, Placed, Later, GapOf, StrayOf, Due, Sound;
      forall i | 0 <= i < |f'.slots| ensures Placed(f'.books, f'.slots[i]) {
        if i != k {
          LaterKeepsPlace(f.books, f'.books, f.slots[i]);
        }
      }
    }
  }

  /** A move beside the runs keeps logs and ledger. */
  lemma OthersStayOrderly(f: Floor, m: Move)
    requires Orderly(f) && !m.Turn?
    ensures Orderly(Step(f, m)) && Step(f, m).slots == f.slots
    ensures Step(f, m).books.logs == f.books.logs && Step(f, m).books.ledger == f.books.ledger
  {
    var f' := Step(f, m);
    hide Step;
    BesideTheRuns(f, m);
    forall i | 0 <= i < |f'.slots| ensures Placed(f'.books, f'.slots[i]) {
      assert Placed(f.books, f.slots[i]);
    }
  }

  lemma OthersReconcile(f: Floor, m: Move, astray: int)
    requires Orderly(f) && Reconciled(f, astray) && !m.Turn?
    ensures Reconciled(Step(f, m), StrayAfter(f, m, astray))
  {
    hide RebuiltSpend, Orderly;
  }

  /** Main result, accounting: whatever runs interleave, in whatever order their steps come and fail, and whenever budgets
    * are set and rebuilds read and write their totals: once there is a counter, the rebuilt total less the counter is
    * what is due in flight plus what is astray. */
  lemma {:induction false} GapIsDueAndStray(f: Floor, moves: seq<Move>)
    requires Orderly(f)
    ensures Orderly(Replay(f, moves)) && Reconciled(Replay(f, moves), Strays(f, moves))
  {
    hide Orderly, Step, StrayAfter;
    if moves != [] {
      var before, m := Replay(f, moves[..|moves| - 1]), moves[|moves| - 1];
      GapIsDueAndStray(f, moves[..|moves| - 1]);
      if m.Turn? {
        TurnReconciles(before, m.slot, m.action, m.lost, Strays(f, moves[..|moves| - 1]));
      } else {
        OthersStayOrderly(before, m);
        OthersReconcile(before, m, Strays(f, moves[..|moves| - 1]));
      }
    }
  }

  lemma NothingDueAtRest(f: Floor)
    requires AtRest(f)
    ensures InFlight(f.slots, Due) == 0
  {
    NothingInFlight(f.slots, Due);
  }

  ghost predicate Agrees(b: Books) {
    b.counter.Some? && b.counter.value.spent == RebuiltSpend(b.logs, b.ledger)
  }

  /** Once every run has ended, counter and log agree exactly when nothing is astray. */
  lemma AgreeAtRestIff(f: Floor, moves: seq<Move>)
    requires Orderly(f) && AtRest(Replay(f, moves)) && Replay(f, moves).books.counter.Some?
    ensures Agrees(Replay(f, moves).books) <==> Strays(f, moves) == 0
  {
    GapIsDueAndStray(f, moves);
    NothingDueAtRest(Replay(f, moves));
    hide Replay, RebuiltSpend, Strays, Orderly;
  }

  // ---- Rebuilds -----------------------------------------------------------------------------------

  /** A turn whose step strays not. */
  ghost predicate StrayFree(f: Floor, m: Move) {
    m.Turn? && (m.slot < |f.slots| ==> StrayOf(f.books, f.slots[m.slot], m.action) == 0)
  }

  ghost predicate AllStrayFree(f: Floor, moves: seq<Move>) {
    forall k :: 0 <= k < |moves| ==> StrayFree(Replay(f, moves[..k]), moves[k])
  }

  lemma {:induction false} StrayFreeMovesAddNothing(f: Floor, moves: seq<Move>)
    requires AllStrayFree(f, moves)
    ensures Strays(f, moves) == Strays(f, [])
  {
    hide StrayOf, Gap;
    if moves != [] {
      var n := |moves| - 1;
      forall k | 0 <= k < n ensures StrayFree(Replay(f, moves[..n][..k]), moves[..n][k]) {
        assert moves[..n][..k] == moves[..k];
        assert StrayFree(Replay(f, moves[..k]), moves[k]);
      }
      StrayFreeMovesAddNothing(f, moves[..n]);
      assert StrayFree(Replay(f, moves[..n]), moves[n]);
    }
  }

  /** A rebuild whose total is written at some later time, followed by turns that stray not until no run is in flight,
    * leaves agreement exactly when what the log grew since the total was read is what was due in flight at the write. */
  lemma WriteTotalAgreesIff(f: Floor, i: nat, moves: seq<Move>)
    requires Orderly(f) && i < |f.totals| && f.books.counter.Some?
    requires AllStrayFree(Step(f, WriteTotal(i)), moves) && AtRest(Replay(Step(f, WriteTotal(i)), moves))
    requires Replay(Step(f, WriteTotal(i)), moves).books.counter.Some?
    ensures Agrees(Replay(Step(f, WriteTotal(i)), moves).books)
       <==> RebuiltSpend(f.books.logs, f.books.ledger) - f.totals[i] == InFlight(f.slots, Due)
  {
    var f' := Step(f, WriteTotal(i));
    OthersStayOrderly(f, WriteTotal(i));
    hide Replay, RebuiltSpend, Orderly, AllStrayFree, Due, Strays, Step, AtRest, Agrees;
    AgreeAtRestIff(f', moves);
    StrayFreeMovesAddNothing(f', moves);
    WrittenStrays(f, i);
  }

  lemma WrittenStrays(f: Floor, i: nat)
    requires i < |f.totals| && f.books.counter.Some?
    ensures Strays(Step(f, WriteTotal(i)), []) == Rebased(f, f.totals[i])
  {
    hide RebuiltSpend, Due;
  }

  /** A rebuild as a whole, with runs in flight: it leaves agreement exactly when nothing was due in flight. */
  lemma RebuildInFlightAgreesIff(f: Floor, moves: seq<Move>)
    requires Orderly(f) && f.books.counter.Some?
    requires var f' := f.(books := Rebuild(f.books));
             AllStrayFree(f', moves) && AtRest(Replay(f', moves)) && Replay(f', moves).books.counter.Some?
    ensures Agrees(Replay(f.(books := Rebuild(f.books)), moves).books) <==> InFlight(f.slots, Due) == 0
  {
    SoloRebuildIsRebuild(f);
    OthersStayOrderly(f, ReadTotal);
    var read := Step(f, ReadTotal);
    assert read.totals[|f.totals|] == RebuiltSpend(f.books.logs, f.books.ledger) && read.books == f.books;
    hide Replay, RebuiltSpend, Orderly, AllStrayFree, Due, Rebuild;
    WriteTotalAgreesIff(read, |f.totals|, moves);
  }

  /** From Authorize to the row that precedes settlement. */
  function Applying(): seq<Action> {
    [Work] + ([Log(false)] + [Act(false)])
  }

  /** A proposal played up to its settlement. */
  lemma ProposalApplies(b: Books, agent: Id, c: nat, reservation: Option<Id>)
    requires MayPropose(b, agent) && c > 0
    ensures var played := Play(b, Some(Flight(Proposal(agent, c), Authorized(reservation))), Applying());
            && played.0.counter == b.counter
            && played.1.Some? && played.1.value.call == Proposal(agent, c) && played.1.value.stage.Applied?
            && played.1.value.stage.reservation == reservation
  {
    var call := Proposal(agent, c);
    ProposalCosts(agent, c);
    var slot := Some(Flight(call, Authorized(reservation)));
    var (executed, work) := Execute(b, call).value;
    assert FinalEffects(executed, call, work) == Effects(0, c, "USD");
    var effects := Effects(0, c, "USD");
    var logged := AppendLog(executed, call, Success, 0, c);
    PlayJoins(b, slot, [Work], [Log(false)] + [Act(false)]);
    PlayOne(b, slot, Work);
    PlayJoins(executed, Some(Flight(call, Worked(reservation, work, effects))), [Log(false)], [Act(false)]);
    PlayOne(executed, Some(Flight(call, Worked(reservation, work, effects))), Log(false));
    PlayOne(logged, Some(Flight(call, Logged(reservation, work, effects, executed.next))), Act(false));
    hide Play, FinalEffects, Estimate;
  }

  /** These moves end at rest with the counter this much above the log. */
  ghost predicate CountsTwice(f: Floor, moves: seq<Move>, excess: int) {
    var f' := Replay(f, moves);
    AtRest(f') && f'.books.counter.Some? && f'.books.counter.value.spent == RebuiltSpend(f'.books.logs, f'.books.ledger) + excess
  }

  /** A run about to settle. */
  ghost predicate AboutToSettle(f: Floor, c: nat) {
    && |f.slots| == 1 && f.books.counter.Some? && f.slots[0].Some? && f.slots[0].value.stage.Applied?
    && f.slots[0].value.call.CallPropose? && Estimate(f.slots[0].value.call) == c
  }

  lemma RunToSettlement(f: Floor, agent: Id, c: nat) returns (moves: seq<Move>)
    requires |f.slots| == 1 && AtRest(f) && MayPropose(f.books, agent) && c > 0
    requires f.books.counter.Some? && Engine.Admits(f.books.counter.value, c)
    ensures AboutToSettle(Replay(f, moves), c)
  {
    var opening := FillSlot(f, 0, agent, c);
    var f1 := Replay(f, opening);
    hide Play, Applying, Replay, MayPropose, Estimate;
    ProposalApplies(f1.books, agent, c, Some(f.books.next));
    OneSlotPlays(f1, 0, Applying());
    ReplayJoins(f, opening, TurnsOf(0, Applying()));
    ProposalCosts(agent, c);
    moves := opening + TurnsOf(0, Applying());
  }

  /** A rebuild while a run stands between its log row and its settlement charges that run twice, whatever it costs. */
  lemma RebuildInFlightCountsTwice(f: Floor, agent: Id, c: nat)
    requires |f.slots| == 1 && AtRest(f) && MayPropose(f.books, agent) && Orderly(f) && c > 0
    requires f.books.counter.Some? && Engine.Admits(f.books.counter.value, c)
    ensures exists moves :: CountsTwice(f, moves, c)
  {
    var before := RunToSettlement(f, agent, c);
    hide Replay, Play, MayPropose, Orderly, AtRest, CountsTwice;
    GapIsDueAndStray(f, before);
    AppliedCountsTwice(Replay(f, before), c);
    var rest := [ReadTotal] + ([WriteTotal(|Replay(f, before).totals|)] + [Turn(0, Settle(false), false)]);
    CountsTwiceAfter(f, before, rest, c);
    assert CountsTwice(f, before + rest, c);
  }

  lemma CountsTwiceAfter(f: Floor, before: seq<Move>, rest: seq<Move>, c: nat)
    requires CountsTwice(Replay(f, before), rest, c)
    ensures CountsTwice(f, before + rest, c)
  {
    ReplayJoins(f, before, rest);
  }

  lemma AppliedCountsTwice(f: Floor, c: nat)
    requires AboutToSettle(f, c) && Orderly(f) && c > 0
    ensures CountsTwice(f, [ReadTotal] + ([WriteTotal(|f.totals|)] + [Turn(0, Settle(false), false)]), c)
  {
    SoloRebuildIsRebuild(f);
    OthersStayOrderly(f, ReadTotal);
    OthersStayOrderly(Step(f, ReadTotal), WriteTotal(|f.totals|));
    var f' := f.(books := Rebuild(f.books));
    ReplayJoins(f, [ReadTotal], [WriteTotal(|f.totals|)] + [Turn(0, Settle(false), false)]);
    ReplayOne(f, ReadTotal);
    ReplayJoins(Step(f, ReadTotal), [WriteTotal(|f.totals|)], [Turn(0, Settle(false), false)]);
    ReplayOne(Step(f, ReadTotal), WriteTotal(|f.totals|));
    ReplayOne(f', Turn(0, Settle(false), false));
    SettlingOverdraws(f', c);
  }

  lemma SettlingOverdraws(f: Floor, c: nat)
    requires |f.slots| == 1 && Agrees(f.books) && c > 0
    requires f.slots[0].Some? && f.slots[0].value.stage.Applied? && Estimate(f.slots[0].value.call) == c
    ensures var f' := Step(f, Turn(0, Settle(false), false));
            AtRest(f') && f'.books.counter.Some? && f'.books.counter.value.spent == RebuiltSpend(f'.books.logs, f'.books.ledger) + c
  {
    hide Estimate, RebuiltSpend, SetReservation;
    var call, s := f.slots[0].value.call, f.slots[0].value.stage;
    var charged := f.books.(counter := Charge(f.books.counter, c));
    ReservationKeepsMoney(charged, s.reservation, Settled(s.logId));
  }

  // ---- Clean steps, and overlapping rejections --------------------------------------------------------

  /** A step of a repository tool that neither fails nor reverses a reversed row, and whose refund the counter covers. */
  predicate Clean(b: Books, slot: Slot, action: Action) {
    slot.Some? ==>
      var Flight(call, s) := slot.value;
      && LeavesCostToEngine(call)
      && (s.Logged? || s.Summed? || s.Checked? ==> Advance(b, slot, action).1.Some?)
      && (s.Logged? && action.Act? && s.work.ToReverse? ==> s.work.logId !in ReversedIds(b.ledger) && s.work.cost >= 0)
      && (s.Flipped? && action.Finish? ==> !action.fails && b.counter.Some? && 0 <= s.cost <= b.counter.value.spent)
      && (s.Applied? && action.Settle? ==> !action.fails)
  }

  lemma LoggedIsCharged(call: Call)
    requires LeavesCostToEngine(call)
    ensures LoggedCost(call) == Positive(Estimate(call))
  {
  }

  /** Clean steps stray not. */
  lemma CleanStepsStrayNot(b: Books, slot: Slot, action: Action)
    requires Clean(b, slot, action) && (slot.Some? && slot.value.stage.Logged? && action.Act? ==> !action.fails)
    ensures StrayOf(b, slot, action) == 0
  {
    if slot.Some? {
      LoggedIsCharged(slot.value.call);
    }
    hide Advance, ReversedIds, Estimate, LoggedCost, LeavesCostToEngine;
  }

  /** From an empty slot to the log row of a rejection. */
  function Rejecting(agent: Id, target: Id): seq<Action> {
    [Enter(CallReject(agent, target), 0, false)] + ([Authorize] + ([Work] + [Log(false)]))
  }

  /** A rejection that has passed its check and logged itself. */
  function Rejected(b: Books, agent: Id, target: Id): Slot {
    Some(Flight(CallReject(agent, target), Logged(None, ToReverse(target, CostOfLog(b.logs, target)), Effects(0, 0, "USD"), b.next)))
  }

  lemma RejectionStarts(b: Books, agent: Id, target: Id)
    requires IsActive(b, agent) && IsOwner(b, agent) && IsConfirmed(b.ledger, target)
    ensures Play(b, None, Rejecting(agent, target))
         == (AppendLog(b, CallReject(agent, target), Success, 0, 0), Rejected(b, agent, target))
  {
    var call := CallReject(agent, target);
    var work := ToReverse(target, CostOfLog(b.logs, target));
    var entered, authorized := Some(Flight(call, Entered)), Some(Flight(call, Authorized(None)));
    var worked := Some(Flight(call, Worked(None, work, Effects(0, 0, "USD"))));
    PlayJoins(b, None, [Enter(call, 0, false)], [Authorize] + ([Work] + [Log(false)]));
    PlayOne(b, None, Enter(call, 0, false));
    PlayJoins(b, entered, [Authorize], [Work] + [Log(false)]);
    PlayOne(b, entered, Authorize);
    PlayJoins(b, authorized, [Work], [Log(false)]);
    PlayOne(b, authorized, Work);
    PlayOne(b, worked, Log(false));
    hide Play, AppendLog, IsConfirmed;
  }

  lemma BothFlip(f: Floor, target: Id, cost: int)
    requires |f.slots| == 2 && cost > 0
    requires forall i :: 0 <= i < 2 ==> IsRejecting(f.slots[i], target, cost)
    ensures var f' := Step(Step(f, Turn(0, Act(false), false)), Turn(1, Act(false), false));
            var once := f.books.(ledger := Post(f.books.ledger, Reversal(target)));
            && f'.books == once.(ledger := Post(once.ledger, Reversal(target))) && |f'.slots| == 2
            && IsFlipped(f'.slots[0], cost) && IsFlipped(f'.slots[1], cost)
  {
    hide Post, Apply;
    assert IsRejecting(f.slots[0], target, cost) && IsRejecting(f.slots[1], target, cost);
    var f1 := Step(f, Turn(0, Act(false), false));
    assert f1.slots[1] == f.slots[1];
  }

  ghost predicate IsRejecting(slot: Slot, target: Id, cost: int) {
    slot.Some? && slot.value.call.CallReject? && slot.value.stage.Logged? && slot.value.stage.work == ToReverse(target, cost)
  }

  ghost predicate IsFlipped(slot: Slot, cost: int) {
    slot.Some? && slot.value.call.CallReject? && slot.value.stage.Flipped? && slot.value.stage.cost == cost
  }

  lemma BothFlipGap(b: Books, target: Id)
    requires Sound(b) && HasLogId(b.ledger, target) && target !in ReversedIds(b.ledger) && b.counter.Some?
    ensures var once := b.(ledger := Post(b.ledger, Reversal(target)));
            var twice := once.(ledger := Post(once.ledger, Reversal(target)));
            Gap(twice) == Gap(b) - CostOfLog(b.logs, target)
  {
    var once := b.(ledger := Post(b.ledger, Reversal(target)));
    FlipMoves(b, target);
    ReversedIdsReverse(b.ledger, target);
    hide ReversedIds, Gap, Reverse;
    FlipMoves(once, target);
  }

  /** The refunds and the settlements of the two. */
  function Refunding(): seq<Move> {
    [Turn(0, Finish(false), false), Turn(1, Finish(false), false), Turn(0, Settle(false), false), Turn(1, Settle(false), false)]
  }

  lemma BothPayBack(f: Floor, cost: int)
    requires |f.slots| == 2 && IsFlipped(f.slots[0], cost) && IsFlipped(f.slots[1], cost)
    ensures var f' := Step(Step(Step(Step(f, Turn(0, Finish(false), false)), Turn(1, Finish(false), false)), Turn(0, Settle(false), false)), Turn(1, Settle(false), false));
            f'.books == f.books.(counter := Refund(Refund(f.books.counter, cost), cost)) && AtRest(f')
  {
    hide Refund, SetReservation;
    var f1 := Step(f, Turn(0, Finish(false), false));
    assert f1.slots[1] == f.slots[1];
    var f2 := Step(f1, Turn(1, Finish(false), false));
    assert f2.slots[0] == f1.slots[0];
    var f3 := Step(f2, Turn(0, Settle(false), false));
    assert f3.slots[1] == f2.slots[1];
  }

  lemma TwoRefundsGap(b: Books, cost: int)
    requires b.counter.Some? && b.counter.value.spent >= 2 * cost > 0
    ensures var b' := b.(counter := Refund(Refund(b.counter, cost), cost));
            b'.counter.Some? && b'.counter.value.spent == b.counter.value.spent - 2 * cost && Gap(b') == Gap(b) + 2 * cost
  {
    hide RebuiltSpend;
  }

  lemma TargetIsOld(b: Books, target: Id)
    requires Sound(b) && IsConfirmed(b.ledger, target)
    ensures HasLogId(b.ledger, target) && target < b.next
  {
    var i :| 0 <= i < |b.ledger| && b.ledger[i].logId == target && b.ledger[i].status == Confirmed;
    assert IsLogged(b.logs, b.ledger[i].logId);
  }

  lemma RejectionLogged(b: Books, agent: Id, target: Id)
    requires Sound(b) && IsConfirmed(b.ledger, target)
    ensures var b' := AppendLog(b, CallReject(agent, target), Success, 0, 0);
            && Moves(b, b', 0) && Sound(b') && CostOfLog(b'.logs, target) == CostOfLog(b.logs, target)
            && b'.ledger == b.ledger && b'.counter == b.counter && b'.members == b.members
  {
    LoggingMoves(b, CallReject(agent, target), Success, 0, 0);
    TargetIsOld(b, target);
    var row := LogRow(b.next, agent, RejectDraft, Success, 0, 0);
    LookupSkipsNew(b.logs, row, target);
  }

  /** Two rejections brought to their log rows. */
  lemma BothStart(f: Floor, agent: Id, target: Id) returns (moves: seq<Move>)
    requires |f.slots| == 2 && AtRest(f) && Sound(f.books) && IsConfirmed(f.books.ledger, target)
    requires IsActive(f.books, agent) && IsOwner(f.books, agent)
    ensures var f' := Replay(f, moves); var cost := CostOfLog(f.books.logs, target);
            && |f'.slots| == 2 && IsRejecting(f'.slots[0], target, cost) && IsRejecting(f'.slots[1], target, cost)
            && Sound(f'.books) && Moves(f.books, f'.books, 0)
            && f'.books.ledger == f.books.ledger && f'.books.counter == f.books.counter
            && CostOfLog(f'.books.logs, target) == cost
  {
    var b1 := AppendLog(f.books, CallReject(agent, target), Success, 0, 0);
    hide Play, Replay, IsConfirmed, Rejecting, AppendLog, Sound, Moves;
    RejectionStarts(f.books, agent, target);
    OneSlotPlays(f, 0, Rejecting(agent, target));
    RejectionLogged(f.books, agent, target);
    var f1 := Replay(f, TurnsOf(0, Rejecting(agent, target)));
    assert IsActive(b1, agent) && IsOwner(b1, agent);
    RejectionStarts(b1, agent, target);
    OneSlotPlays(f1, 1, Rejecting(agent, target));
    RejectionLogged(b1, agent, target);
    ReplayJoins(f, TurnsOf(0, Rejecting(agent, target)), TurnsOf(1, Rejecting(agent, target)));
    MovesOn(f.books, b1, AppendLog(b1, CallReject(agent, target), Success, 0, 0), 0, 0);
    moves := TurnsOf(0, Rejecting(agent, target)) + TurnsOf(1, Rejecting(agent, target));
  }

  /** These moves end at rest with the row's cost refunded twice, and once out of the rebuilt total. */
  ghost predicate RefundsTwice(f: Floor, moves: seq<Move>, cost: int)
    requires f.books.counter.Some?
  {
    var f' := Replay(f, moves);
    && AtRest(f') && f'.books.counter.Some? && f'.books.counter.value.spent == f.books.counter.value.spent - 2 * cost
    && Gap(f'.books) == Gap(f.books) + cost
  }

  function Overlapping(): seq<Move> {
    [Turn(0, Act(false), false), Turn(1, Act(false), false)] + Refunding()
  }

  lemma {:induction false} ReplayTwoAndFour(f: Floor)
    ensures Replay(f, Overlapping())
         == Step(Step(Step(Step(Step(Step(f, Turn(0, Act(false), false)), Turn(1, Act(false), false)), Turn(0, Finish(false), false)), Turn(1, Finish(false), false)),
                      Turn(0, Settle(false), false)), Turn(1, Settle(false), false))
  {
    hide Step;
    var moves := Overlapping();
    assert moves == [moves[0]] + ([moves[1]] + ([moves[2]] + ([moves[3]] + ([moves[4]] + [moves[5]]))));
    ReplayJoins(f, [moves[0]], [moves[1]] + ([moves[2]] + ([moves[3]] + ([moves[4]] + [moves[5]]))));
    ReplayOne(f, moves[0]);
    var f1 := Step(f, moves[0]);
    ReplayJoins(f1, [moves[1]], [moves[2]] + ([moves[3]] + ([moves[4]] + [moves[5]])));
    ReplayOne(f1, moves[1]);
    var f2 := Step(f1, moves[1]);
    ReplayJoins(f2, [moves[2]], [moves[3]] + ([moves[4]] + [moves[5]]));
    ReplayOne(f2, moves[2]);
    var f3 := Step(f2, moves[2]);
    ReplayJoins(f3, [moves[3]], [moves[4]] + [moves[5]]);
    ReplayOne(f3, moves[3]);
    var f4 := Step(f3, moves[3]);
    ReplayJoins(f4, [moves[4]], [moves[5]]);
    ReplayOne(f4, moves[4]);
    ReplayOne(Step(f4, moves[4]), moves[5]);
  }

  lemma OverlappingEnds(f: Floor, target: Id, cost: int)
    requires |f.slots| == 2 && IsRejecting(f.slots[0], target, cost) && IsRejecting(f.slots[1], target, cost)
    requires Sound(f.books) && HasLogId(f.books.ledger, target) && target !in ReversedIds(f.books.ledger)
    requires CostOfLog(f.books.logs, target) == cost && f.books.counter.Some? && f.books.counter.value.spent >= 2 * cost > 0
    ensures RefundsTwice(f, Overlapping(), cost)
  {
    hide Step, Sound, ReversedIds, Post, Gap, Refund, IsRejecting, IsFlipped, Overlapping, Replay, AtRest;
    ReplayTwoAndFour(f);
    assert forall i :: 0 <= i < 2 ==> IsRejecting(f.slots[i], target, cost);
    BothFlip(f, target, cost);
    BothFlipGap(f.books, target);
    var f2 := Step(Step(f, Turn(0, Act(false), false)), Turn(1, Act(false), false));
    BothPayBack(f2, cost);
    TwoRefundsGap(f2.books, cost);
  }

  /** Two rejections of one award that both pass the check before either acts refund its cost twice. */
  lemma OverlappingRejectionsRefundTwice(f: Floor, agent: Id, target: Id)
    requires |f.slots| == 2 && AtRest(f) && Orderly(f) && IsActive(f.books, agent) && IsOwner(f.books, agent)
    requires IsConfirmed(f.books.ledger, target) && target !in ReversedIds(f.books.ledger)
    requires f.books.counter.Some? && f.books.counter.value.spent >= 2 * CostOfLog(f.books.logs, target) > 0
    ensures exists moves :: RefundsTwice(f, moves, CostOfLog(f.books.logs, target))
  {
    assert Sound(f.books);
    TargetIsOld(f.books, target);
    var cost := CostOfLog(f.books.logs, target);
    var before := BothStart(f, agent, target);
    var f' := Replay(f, before);
    hide Replay, Sound, Orderly, IsConfirmed, ReversedIds, Gap, Overlapping, AtRest, IsRejecting;
    OverlappingEnds(f', target, cost);
    assert Gap(f'.books) == Gap(f.books) by { MovesNowhere(f.books, f'.books); }
    ReplayJoins(f, before, Overlapping());
    assert RefundsTwice(f, before + Overlapping(), cost);
  }

  lemma MovesNowhere(b: Books, b': Books)
    requires Moves(b, b', 0) && b.counter.Some?
    ensures b'.counter.Some? && Gap(b') == Gap(b)
  {
  }
}
