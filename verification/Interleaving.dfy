/** Engine.Run in steps, many runs at once. A step makes at most one write to the rows that other steps read; reads are
  * steps of their own wherever another run can come between them and the write they lead to. The runs share the tables
  * and each keeps its locals in a slot, so there are at most as many runs in flight as slots. Budgets are set and
  * rebuilt in between, and a rebuild reads its total before it writes it. */
module Interleaving {
  import opened Common
  import opened Books
  import opened Engine
  import RateLimit

  /** How far a run has come, with the locals it still needs. */
  datatype Stage =
    | Entered
    | Authorized(reservation: Option<Id>)
    | Resolved(reservation: Option<Id>, draft: Id)
    | Claiming(reservation: Option<Id>, draft: Id, proposer: Id)
    | Worked(reservation: Option<Id>, work: Work, effects: Effects)
    | Logged(reservation: Option<Id>, work: Work, effects: Effects, logId: Id)
    | Summed(reservation: Option<Id>, draft: Id, proposer: Id, tokens: int, balance: int, logId: Id)
    | Checked(reservation: Option<Id>, work: Work, logId: Id)
    | Flipped(reservation: Option<Id>, cost: int, logId: Id)
    | Applied(reservation: Option<Id>, logId: Id)

  datatype Flight = Flight(call: Call, stage: Stage)

  type Slot = Option<Flight>

  datatype Action =
    | Enter(call: Call, now: int, prune: bool)
    | Authorize
    | Work
    | Read
    | Claim(fails: bool)
    | Log(fails: bool)
    | Act(fails: bool)
    | Finish(fails: bool)
    | Settle(fails: bool)

  /** A failed step after the budget gate: the reservation is released and the refusal logged. */
  function Refuse(b: Books, call: Call, reservation: Option<Id>): (Books, Slot) {
    (LogRefusal(SetReservation(b, reservation, Released), call), None)
  }

  /** A failed Step 5 or 6: the reservation is released. */
  function Abort(b: Books, reservation: Option<Id>): (Books, Slot) {
    (SetReservation(b, reservation, Released), None)
  }

  /** Steps 1 to 2. No step changes what Step 1 reads of an existing member. */
  function Entering(b: Books, call: Call, now: int, prune: bool): (Books, Slot) {
    if !IsActive(b, call.agent) then (b, None)
    else
      var (gated, ok) := Gate(b, call, now, prune);
      if !ok || !Permitted(gated, call) then (LogRefusal(gated, call), None)
      else (gated, Some(Flight(call, Entered)))
  }

  /** Step 2.5, one transaction. */
  function Authorizing(b: Books, call: Call): (Books, Slot) {
    match Reserve(b, Estimate(call))
    case None => (LogRefusal(b, call), None)
    case Some((reserved, reservation)) => (reserved, Some(Flight(call, Authorized(reservation))))
  }

  /** Step 4: the effects, and the currency gate. */
  function Pricing(b: Books, call: Call, work: Work, reservation: Option<Id>): (Books, Slot) {
    var effects := FinalEffects(b, call, work);
    if effects.cost > 0 && effects.currency != BudgetCurrency(b) then Refuse(b, call, reservation)
    else (b, Some(Flight(call, Worked(reservation, work, effects))))
  }

  /** Step 3; an approval first only finds its draft. */
  function Working(b: Books, call: Call, reservation: Option<Id>): (Books, Slot) {
    if call.CallApprove? then
      if call.units <= 0 || ResolveDraft(b, call.target).None? then Refuse(b, call, reservation)
      else (b, Some(Flight(call, Resolved(reservation, ResolveDraft(b, call.target).value))))
    else
      match Execute(b, call)
      case None => Refuse(b, call, reservation)
      case Some((executed, work)) => Pricing(executed, call, work, reservation)
  }

  /** The first statement of ClaimPending reads the pending row. */
  function Reading(b: Books, call: Call, s: Stage): (Books, Slot)
    requires s.Resolved?
  {
    if s.draft !in b.pending then Refuse(b, call, s.reservation)
    else (b, Some(Flight(call, Claiming(s.reservation, s.draft, b.pending[s.draft]))))
  }

  /** The work of an approval that has read this draft. */
  function ClaimedBy(call: Call, draft: Id, proposer: Id): Work {
    if call.CallApprove? then Claimed(draft, proposer, call.units, if call.ratio == 0.0 then 1.0 else call.ratio) else Nothing
  }

  /** The second deletes it, whether or not it is still there. */
  function Deleting(b: Books, call: Call, s: Stage, fails: bool): (Books, Slot)
    requires s.Claiming?
  {
    if fails then Refuse(b, call, s.reservation)
    else Pricing(b.(pending := b.pending - {s.draft}), call, ClaimedBy(call, s.draft, s.proposer), s.reservation)
  }

  /** Step 5, one transaction. */
  function Logging(b: Books, call: Call, s: Stage, fails: bool): (Books, Slot)
    requires s.Worked?
  {
    if fails then Abort(b, s.reservation)
    else (AppendLog(b, call, Success, s.effects.tokens, s.effects.cost),
          Some(Flight(call, Logged(s.reservation, s.work, s.effects, b.next))))
  }

  /** What the approval of an access request reads before its transaction. */
  predicate Approvable(b: Books, request: Id) {
    IsPending(b, request) && b.requests[request].platform in b.identities && b.requests[request].tier in b.tiers
  }

  predicate Resolvable(b: Books, work: Work) {
    (work.ToApprove? && Approvable(b, work.request)) || (work.ToReject? && IsPending(b, work.request))
  }

  /** The first statement of Step 6: an award sums the balance, an access request is read, a rejection reverses its row. */
  function Acting(b: Books, call: Call, s: Stage, fails: bool): (Books, Slot)
    requires s.Logged?
  {
    if fails then Abort(b, s.reservation)
    else
      match s.work
      case Claimed(draft, proposer, _, _) =>
        (b, Some(Flight(call, Summed(s.reservation, draft, proposer, s.effects.tokens, Balance(b.ledger, proposer), s.logId))))
      case ToReverse(target, cost) =>
        (b.(ledger := Post(b.ledger, Reversal(target))),
         Some(Flight(call, if cost > 0 then Flipped(s.reservation, cost, s.logId) else Applied(s.reservation, s.logId))))
      case Drafted(draft) =>
        (b.(pending := b.pending[draft := call.agent]), Some(Flight(call, Applied(s.reservation, s.logId))))
      case Nothing => (b, Some(Flight(call, Applied(s.reservation, s.logId))))
      case _ =>
        if Resolvable(b, s.work) then (b, Some(Flight(call, Checked(s.reservation, s.work, s.logId))))
        else Abort(b, s.reservation)
  }

  /** The request as its resolver read it; the writes do not look at the status again. */
  function AsRead(b: Books, request: Id): Books {
    if request in b.requests then b.(requests := b.requests[request := b.requests[request].(status := Pending)]) else b
  }

  function Resolve(b: Books, work: Work, logId: Id): Option<Books> {
    match work
    case ToApprove(request) => ApproveRequest(AsRead(b, request), request, logId)
    case ToReject(request) => RejectRequest(AsRead(b, request), request, logId)
    case _ => None
  }

  /** The row an award inserts, over the balance it summed. */
  function AwardRow(s: Stage): LedgerRow
    requires s.Summed?
  {
    LedgerRow(s.proposer, s.tokens, s.balance + s.tokens, Passage, s.draft, s.logId, Confirmed)
  }

  /** The second: the award's row, the resolution, or the refund. */
  function Finishing(b: Books, call: Call, s: Stage, fails: bool): (Books, Slot)
    requires s.Summed? || s.Checked? || s.Flipped?
  {
    var applied := Some(Flight(call, Applied(s.reservation, s.logId)));
    if fails then Abort(b, s.reservation)
    else if s.Summed? then (b.(ledger := b.ledger + [AwardRow(s)]), applied)
    else if s.Flipped? then (b.(counter := Refund(b.counter, s.cost)), applied)
    else
      var resolved := Resolve(b, s.work, s.logId);
      if resolved.Some? then (resolved.value, applied) else Abort(b, s.reservation)
  }

  /** Step 7. A failure leaves the reservation as it is. */
  function Settling(b: Books, call: Call, s: Stage, fails: bool): (Books, Slot)
    requires s.Applied?
  {
    if fails && Estimate(call) > 0 then (b, None)
    else (RecordSpend(b, Estimate(call), s.reservation, s.logId), None)
  }

  /** One step of the run in a slot; an action that is not the run's next one changes nothing. */
  function Advance(b: Books, slot: Slot, action: Action): (Books, Slot) {
    match slot
    case None => if action.Enter? then Entering(b, action.call, action.now, action.prune) else (b, slot)
    case Some(Flight(call, s)) =>
      if s.Entered? && action.Authorize? then Authorizing(b, call)
      else if s.Authorized? && action.Work? then Working(b, call, s.reservation)
      else if s.Resolved? && action.Read? then Reading(b, call, s)
      else if s.Claiming? && action.Claim? then Deleting(b, call, s, action.fails)
      else if s.Worked? && action.Log? then Logging(b, call, s, action.fails)
      else if s.Logged? && action.Act? then Acting(b, call, s, action.fails)
      else if (s.Summed? || s.Checked? || s.Flipped?) && action.Finish? then Finishing(b, call, s, action.fails)
      else if s.Applied? && action.Settle? then Settling(b, call, s, action.fails)
      else (b, slot)
  }

  // ---- What the steps may write -----------------------------------------------------------------------

  lemma GateWrites(b: Books, call: Call, now: int, prune: bool)
    ensures var b' := Gate(b, call, now, prune).0; b' == b.(buckets := b'.buckets)
  {
    hide RateLimit.CheckAndIncrement;
  }

  lemma LoggingWrites(b: Books, call: Call, result: LogResult, tokens: int, cost: int)
    ensures var b' := AppendLog(b, call, result, tokens, cost);
            b' == b.(logs := b'.logs, next := b'.next) && b'.next == b.next + 1 && b.logs <= b'.logs
  {
  }

  lemma ReservationWrites(b: Books, reservation: Option<Id>, status: ReservationStatus)
    ensures var b' := SetReservation(b, reservation, status); b' == b.(reservations := b'.reservations)
  {
  }

  /** Entering counts a call, and may log a refusal. */
  lemma EnteringWrites(b: Books, call: Call, now: int, prune: bool)
    ensures var (b', slot) := Entering(b, call, now, prune);
            && b' == b.(buckets := b'.buckets, logs := b'.logs, next := b'.next) && b'.next >= b.next
            && (slot.Some? ==> slot == Some(Flight(call, Entered)) && b'.logs == b.logs && b'.next == b.next)
  {
    hide Gate, AppendLog, Permitted, IsActive;
    GateWrites(b, call, now, prune);
    LoggingWrites(Gate(b, call, now, prune).0, call, Refusal, 0, 0);
  }

  /** Authorizing adds a reservation, or logs a refusal. */
  lemma AuthorizingWrites(b: Books, call: Call)
    ensures var (b', slot) := Authorizing(b, call);
            && b' == b.(reservations := b'.reservations, logs := b'.logs, next := b'.next) && b'.next >= b.next
            && (slot.Some? ==> slot.value.call == call && slot.value.stage.Authorized? && b'.logs == b.logs)
  {
    hide Estimate, AppendLog;
    LoggingWrites(b, call, Refusal, 0, 0);
  }

  /** A failing step closes the reservation, and may log a refusal. */
  lemma RefusingWrites(b: Books, call: Call, reservation: Option<Id>)
    ensures var b' := Refuse(b, call, reservation).0;
            b' == b.(reservations := b'.reservations, logs := b'.logs, next := b'.next) && b'.next >= b.next
    ensures Refuse(b, call, reservation).1 == None && Abort(b, reservation).1 == None
    ensures var b' := Abort(b, reservation).0; b' == b.(reservations := b'.reservations)
  {
    hide SetReservation, AppendLog;
    ReservationWrites(b, reservation, Released);
    LoggingWrites(SetReservation(b, reservation, Released), call, Refusal, 0, 0);
  }

  /** Settling charges the counter and closes the reservation. */
  lemma SettlingWrites(b: Books, call: Call, s: Stage, fails: bool)
    requires s.Applied?
    ensures var (b', slot) := Settling(b, call, s, fails);
            b' == b.(counter := b'.counter, reservations := b'.reservations) && slot == None
  {
    hide Estimate, SetReservation;
    ReservationWrites(b.(counter := Charge(b.counter, Estimate(call))), s.reservation, Settled(s.logId));
  }

  /** The tables, the runs in flight, and the totals that rebuilds have read and not yet written. */
  datatype Floor = Floor(books: Books, slots: seq<Slot>, totals: seq<int>)

  datatype Move =
    | Turn(slot: nat, action: Action, lost: bool)
    | SetBudget(limit: int)
    | ReadTotal
    | WriteTotal(index: nat)

  /** A step, whose update of the run's reservation may be lost as the run ends: its error is discarded. */
  function Advanced(b: Books, slot: Slot, action: Action, lost: bool): (Books, Slot) {
    var next := Advance(b, slot, action);
    if lost && slot.Some? && next.1.None? then (next.0.(reservations := b.reservations), None) else next
  }

  /** A lost update of the reservation makes no difference to counter and slot. */
  lemma AdvancedIsAdvance(b: Books, slot: Slot, action: Action, lost: bool)
    ensures var next, next' := Advance(b, slot, action), Advanced(b, slot, action, lost);
            next'.0 == next.0.(reservations := next'.0.reservations) && next'.1 == next.1
  {
    hide Advance;
  }

  function SetSpent(b: Books, total: int): Books {
    if b.counter.None? then b else b.(counter := Some(b.counter.value.(spent := total)))
  }

  function Step(f: Floor, m: Move): Floor {
    match m
    case Turn(k, action, lost) =>
      if k >= |f.slots| then f
      else
        var (books, slot) := Advanced(f.books, f.slots[k], action, lost);
        Floor(books, f.slots[k := slot], f.totals)
    case SetBudget(limit) => f.(books := EnsureCounter(f.books, limit))
    case ReadTotal => f.(totals := f.totals + [RebuiltSpend(f.books.logs, f.books.ledger)])
    case WriteTotal(i) =>
      if i >= |f.totals| then f
      else Floor(SetSpent(f.books, f.totals[i]), f.slots, f.totals[..i] + f.totals[i + 1..])
  }

  /** Setting and rebuilding budgets writes the counter alone. */
  lemma BesideTheRuns(f: Floor, m: Move)
    requires !m.Turn? || m.slot >= |f.slots|
    ensures var f' := Step(f, m); f'.books == f.books.(counter := f'.books.counter) && f'.slots == f.slots
  {
    hide RebuiltSpend, Advanced;
  }

  function Replay(f: Floor, moves: seq<Move>): Floor {
    if moves == [] then f else Step(Replay(f, moves[..|moves| - 1]), moves[|moves| - 1])
  }

  lemma ReplayNext(f: Floor, moves: seq<Move>, k: nat)
    requires k < |moves|
    ensures Replay(f, moves[..k + 1]) == Step(Replay(f, moves[..k]), moves[k])
  {
    assert moves[..k + 1][..k] == moves[..k];
  }

  // ---- One run at a time ------------------------------------------------------------------------

  function Play(b: Books, slot: Slot, actions: seq<Action>): (Books, Slot)
    decreases |actions|
  {
    if actions == [] then (b, slot)
    else
      var next := Advance(b, slot, actions[0]);
      Play(next.0, next.1, actions[1..])
  }

  /** The steps of a run of this call with this fault, after it entered. */
  function Steps(call: Call, fault: Fault): seq<Action> {
    [Authorize, Work, Read, Claim(false), Log(fault == LogFails), Act(fault == ApplyFails),
     Finish(fault == RefundFails && call.CallReject?), Settle(fault == SettleFails)]
  }

  lemma {:induction false} EmptySlotPlays(b: Books, call: Call, fault: Fault, k: nat)
    requires k <= 8
    ensures Play(b, None, Steps(call, fault)[k..]) == (b, None)
    decreases 8 - k
  {
    if k < 8 {
      assert Steps(call, fault)[k..][1..] == Steps(call, fault)[k + 1..];
      EmptySlotPlays(b, call, fault, k + 1);
    }
  }

  lemma PlaysOn(b: Books, slot: Slot, call: Call, fault: Fault, k: nat)
    requires k < 8
    ensures var next := Advance(b, slot, Steps(call, fault)[k]);
            Play(b, slot, Steps(call, fault)[k..]) == Play(next.0, next.1, Steps(call, fault)[k + 1..])
  {
    hide Advance;
    assert Steps(call, fault)[k..][1..] == Steps(call, fault)[k + 1..];
  }

  lemma SoloSettles(b: Books, call: Call, reservation: Option<Id>, logId: Id, fault: Fault)
    ensures Play(b, Some(Flight(call, Applied(reservation, logId))), Steps(call, fault)[7..])
         == (if fault == SettleFails && Estimate(call) > 0 then b else RecordSpend(b, Estimate(call), reservation, logId), None)
  {
    PlaysOn(b, Some(Flight(call, Applied(reservation, logId))), call, fault, 7);
    EmptySlotPlays(Settling(b, call, Applied(reservation, logId), fault == SettleFails).0, call, fault, 8);
  }

  lemma PendingIsAsRead(b: Books, request: Id)
    requires IsPending(b, request)
    ensures AsRead(b, request) == b
  {
    assert b.requests[request := b.requests[request].(status := Pending)] == b.requests;
  }

  /** The two statements of Step 6 are the side effects as one. */
  lemma SoloApplies(b: Books, call: Call, s: Stage, fault: Fault)
    requires s.Logged? && (s.work.ToReverse? <==> call.CallReject?)
    ensures var (b', slot') := Acting(b, call, s, fault == ApplyFails);
            var (applied, ok) := Apply(b, call, s.work, s.effects.tokens, s.logId, fault);
            var (b'', slot'') := Advance(b', slot', Finish(fault == RefundFails && call.CallReject?));
            && b'' == (if ok then applied else SetReservation(applied, s.reservation, Released))
            && slot'' == if ok then Some(Flight(call, Applied(s.reservation, s.logId))) else None
  {
    hide Balance, SetReservation, HasPlatform, Reverse;
    if (s.work.ToApprove? || s.work.ToReject?) && IsPending(b, s.work.request) {
      PendingIsAsRead(b, s.work.request);
    }
    hide AsRead;
  }

  lemma SoloActs(b: Books, call: Call, s: Stage, fault: Fault)
    requires s.Logged? && (s.work.ToReverse? <==> call.CallReject?)
    ensures var applied := Apply(b, call, s.work, s.effects.tokens, s.logId, fault);
            Play(b, Some(Flight(call, s)), Steps(call, fault)[5..])
            == (if !applied.1 then SetReservation(applied.0, s.reservation, Released)
                else if fault == SettleFails && Estimate(call) > 0 then applied.0
                else RecordSpend(applied.0, Estimate(call), s.reservation, s.logId), None)
  {
    hide Play, RecordSpend, SetReservation, Apply, Acting, Finishing, Estimate;
    var slot := Some(Flight(call, s));
    var (b', slot') := Acting(b, call, s, fault == ApplyFails);
    PlaysOn(b, slot, call, fault, 5);
    PlaysOn(b', slot', call, fault, 6);
    SoloApplies(b, call, s, fault);
    var (applied, ok) := Apply(b, call, s.work, s.effects.tokens, s.logId, fault);
    if ok {
      SoloSettles(applied, call, s.reservation, s.logId, fault);
    } else {
      EmptySlotPlays(SetReservation(applied, s.reservation, Released), call, fault, 7);
    }
  }

  lemma SoloCommits(b: Books, call: Call, work: Work, effects: Effects, reservation: Option<Id>, fault: Fault)
    requires work.ToReverse? <==> call.CallReject?
    ensures Play(b, Some(Flight(call, Worked(reservation, work, effects))), Steps(call, fault)[4..])
         == (if fault == LogFails then SetReservation(b, reservation, Released)
             else Commit(b, call, work, effects, reservation, fault).0, None)
  {
    hide Play, RecordSpend, SetReservation, AppendLog, Apply, Estimate;
    PlaysOn(b, Some(Flight(call, Worked(reservation, work, effects))), call, fault, 4);
    if fault == LogFails {
      EmptySlotPlays(SetReservation(b, reservation, Released), call, fault, 5);
    } else {
      SoloActs(AppendLog(b, call, Success, effects.tokens, effects.cost), call, Logged(reservation, work, effects, b.next), fault);
    }
  }

  /** From Step 4 on. */
  function Priced(b: Books, call: Call, work: Work, reservation: Option<Id>, fault: Fault): Books {
    var effects := FinalEffects(b, call, work);
    if effects.cost > 0 && effects.currency != BudgetCurrency(b) then LogRefusal(SetReservation(b, reservation, Released), call)
    else if fault == LogFails then SetReservation(b, reservation, Released)
    else Commit(b, call, work, effects, reservation, fault).0
  }

  lemma SoloPrices(b: Books, call: Call, work: Work, reservation: Option<Id>, fault: Fault)
    requires work.ToReverse? <==> call.CallReject?
    ensures var next := Pricing(b, call, work, reservation);
            Play(next.0, next.1, Steps(call, fault)[4..]) == (Priced(b, call, work, reservation, fault), None)
  {
    hide Play, Commit, FinalEffects, SetReservation, LogRefusal;
    var (b', slot') := Pricing(b, call, work, reservation);
    if slot'.None? {
      EmptySlotPlays(b', call, fault, 4);
    } else {
      SoloCommits(b, call, work, FinalEffects(b, call, work), reservation, fault);
    }
  }

  lemma PerformPrices(b: Books, call: Call, reservation: Option<Id>, fault: Fault)
    ensures Perform(b, call, reservation, fault).0
         == match Execute(b, call)
            case None => LogRefusal(SetReservation(b, reservation, Released), call)
            case Some((executed, work)) => Priced(executed, call, work, reservation, fault)
  {
    assert Execute(b, call).Some? ==> Execute(b, call).value.0.currency == b.currency;
    hide Commit, FinalEffects, SetReservation, LogRefusal, Execute;
  }

  /** An approval that finds its draft: resolved, read and deleted in three steps. */
  lemma SoloClaims(b: Books, call: Call, reservation: Option<Id>, fault: Fault)
    requires call.CallApprove? && call.units > 0 && ResolveDraft(b, call.target).Some?
    ensures var draft := ResolveDraft(b, call.target).value;
            Play(b, Some(Flight(call, Resolved(reservation, draft))), Steps(call, fault)[2..])
            == (Perform(b, call, reservation, fault).0, None)
  {
    hide Play, Perform, Priced, Pricing, ResolveDraft, SetReservation, LogRefusal;
    var draft := ResolveDraft(b, call.target).value;
    var slot := Some(Flight(call, Resolved(reservation, draft)));
    PlaysOn(b, slot, call, fault, 2);
    PerformPrices(b, call, reservation, fault);
    if draft !in b.pending {
      EmptySlotPlays(LogRefusal(SetReservation(b, reservation, Released), call), call, fault, 3);
    } else {
      var claiming := Some(Flight(call, Claiming(reservation, draft, b.pending[draft])));
      PlaysOn(b, claiming, call, fault, 3);
      SoloPrices(b.(pending := b.pending - {draft}), call, ClaimedBy(call, draft, b.pending[draft]), reservation, fault);
    }
  }

  lemma SkipsTo(b: Books, slot: Slot, call: Call, fault: Fault)
    requires slot.Some? ==> slot.value.stage.Worked?
    ensures Play(b, slot, Steps(call, fault)[2..]) == Play(b, slot, Steps(call, fault)[4..])
  {
    hide Play, Entering, Logging;
    PlaysOn(b, slot, call, fault, 2);
    PlaysOn(b, slot, call, fault, 3);
  }

  lemma ExecuteFitsCall(b: Books, call: Call)
    requires Execute(b, call).Some?
    ensures Execute(b, call).value.1.ToReverse? <==> call.CallReject?
  {
  }

  lemma SoloPerforms(b: Books, call: Call, reservation: Option<Id>, fault: Fault)
    ensures Play(b, Some(Flight(call, Authorized(reservation))), Steps(call, fault)[1..]) == (Perform(b, call, reservation, fault).0, None)
  {
    PerformPrices(b, call, reservation, fault);
    PlaysOn(b, Some(Flight(call, Authorized(reservation))), call, fault, 1);
    hide Play, Perform, Priced, SetReservation, LogRefusal, ResolveDraft, FinalEffects;
    var (b', slot') := Working(b, call, reservation);
    if call.CallApprove? && slot'.Some? {
      SoloClaims(b, call, reservation, fault);
    } else if call.CallApprove? || Execute(b, call).None? {
      EmptySlotPlays(b', call, fault, 2);
    } else {
      var (executed, work) := Execute(b, call).value;
      ExecuteFitsCall(b, call);
      SkipsTo(b', slot', call, fault);
      SoloPrices(executed, call, work, reservation, fault);
    }
  }

  /** The steps refine the run: played through without another run in between, they are Engine.Run. */
  lemma SoloRunIsRun(b: Books, call: Call, now: int, prune: bool, fault: Fault)
    ensures var entered := Advance(b, None, Enter(call, now, prune));
            Play(entered.0, entered.1, Steps(call, fault)) == (Run(b, call, now, prune, fault).0, None)
  {
    hide Play, Perform, IsActive, Gate, Permitted, Reserve, Estimate, LogRefusal;
    var (entered, slot) := Entering(b, call, now, prune);
    assert Steps(call, fault)[0..] == Steps(call, fault);
    if slot.None? {
      EmptySlotPlays(entered, call, fault, 0);
    } else {
      PlaysOn(entered, slot, call, fault, 0);
      var (b', slot') := Authorizing(entered, call);
      if slot'.None? {
        EmptySlotPlays(b', call, fault, 1);
      } else {
        SoloPerforms(b', call, slot'.value.stage.reservation, fault);
      }
    }
  }

  /** So are the two statements of a rebuild. */
  lemma SoloRebuildIsRebuild(f: Floor)
    ensures Step(Step(f, ReadTotal), WriteTotal(|f.totals|)) == f.(books := Rebuild(f.books))
  {
    var total := RebuiltSpend(f.books.logs, f.books.ledger);
    var totals := f.totals + [total];
    assert totals[..|f.totals|] + totals[|f.totals| + 1..] == f.totals;
    hide RebuiltSpend;
  }

  // ---- One slot at a time -------------------------------------------------------------------------

  lemma {:induction false} ReplayJoins(f: Floor, before: seq<Move>, after: seq<Move>)
    ensures Replay(f, before + after) == Replay(Replay(f, before), after)
  {
    if after == [] {
      assert before + after == before;
    } else {
      var n := |after| - 1;
      assert (before + after)[..|before + after| - 1] == before + after[..n];
      ReplayJoins(f, before, after[..n]);
    }
  }

  lemma ReplayOne(f: Floor, m: Move)
    ensures Replay(f, [m]) == Step(f, m)
  {
    assert [m][..0] == [] && Replay(f, []) == f;
  }

  lemma ReplayAround(f: Floor, before: seq<Move>, m: Move, after: seq<Move>)
    ensures Replay(f, before + [m] + after) == Replay(Step(Replay(f, before), m), after)
  {
    hide Step;
    ReplayJoins(f, before + [m], after);
    ReplayJoins(f, before, [m]);
    ReplayOne(Replay(f, before), m);
  }

  function TurnsOf(k: nat, actions: seq<Action>): seq<Move> {
    seq(|actions|, i requires 0 <= i < |actions| => Turn(k, actions[i], false))
  }

  /** Steps taken in one slot alone are that slot played. */
  lemma {:induction false} OneSlotPlays(f: Floor, k: nat, actions: seq<Action>)
    requires k < |f.slots|
    ensures var played := Play(f.books, f.slots[k], actions);
            Replay(f, TurnsOf(k, actions)) == Floor(played.0, f.slots[k := played.1], f.totals)
    decreases |actions|
  {
    hide Advance;
    if actions == [] {
      assert f.slots[k := f.slots[k]] == f.slots;
    } else {
      var f' := Step(f, Turn(k, actions[0], false));
      assert TurnsOf(k, actions) == [Turn(k, actions[0], false)] + TurnsOf(k, actions[1..]);
      ReplayJoins(f, [Turn(k, actions[0], false)], TurnsOf(k, actions[1..]));
      ReplayOne(f, Turn(k, actions[0], false));
      OneSlotPlays(f', k, actions[1..]);
    }
  }

  lemma {:induction false} PlayJoins(b: Books, slot: Slot, first: seq<Action>, second: seq<Action>)
    ensures var next := Play(b, slot, first);
            Play(b, slot, first + second) == Play(next.0, next.1, second)
    decreases |first|
  {
    hide Advance;
    if first == [] {
      assert first + second == second;
    } else {
      assert (first + second)[1..] == first[1..] + second;
      var next := Advance(b, slot, first[0]);
      PlayJoins(next.0, next.1, first[1..], second);
    }
  }

  lemma PlayOne(b: Books, slot: Slot, action: Action)
    ensures Play(b, slot, [action]) == Advance(b, slot, action)
  {
    var next := Advance(b, slot, action);
    assert [action][1..] == [] && Play(next.0, next.1, []) == next;
  }
}
