/** The budget ceiling and the reservation table when runs interleave. */
module Reservations {
  import opened Common
  import opened Books
  import opened Engine
  import opened Interleaving
  import Ceiling
  import RateLimit

  // ---- Sums over the slots ------------------------------------------------------------------------

  function Positive(x: int): int {
    if x > 0 then x else 0
  }

  /** What a run past the budget gate may still charge. */
  function Held(slot: Slot): int {
    if slot.None? || slot.value.stage.Entered? then 0 else Positive(Estimate(slot.value.call))
  }

  function InFlight(slots: seq<Slot>, weight: Slot -> int): int {
    if slots == [] then 0 else InFlight(slots[..|slots| - 1], weight) + weight(slots[|slots| - 1])
  }

  lemma {:induction false} InFlightUpdates(slots: seq<Slot>, weight: Slot -> int, k: nat, slot: Slot)
    requires k < |slots|
    ensures InFlight(slots[k := slot], weight) == InFlight(slots, weight) - weight(slots[k]) + weight(slot)
  {
    var n := |slots| - 1;
    if k < n {
      assert slots[k := slot][..n] == slots[..n][k := slot];
      InFlightUpdates(slots[..n], weight, k, slot);
    } else {
      assert slots[k := slot][..n] == slots[..n];
    }
  }

  lemma {:induction false} InFlightIsAtMost(slots: seq<Slot>, weight: Slot -> int, most: int)
    requires forall i :: 0 <= i < |slots| ==> weight(slots[i]) <= most
    ensures InFlight(slots, weight) <= |slots| * most
  {
    if slots != [] {
      InFlightIsAtMost(slots[..|slots| - 1], weight, most);
    }
  }

  lemma {:induction false} InFlightElsewhere(slots: seq<Slot>, weight: Slot -> int, k: nat, most: int)
    requires k < |slots| && weight(slots[k]) == 0
    requires forall i :: 0 <= i < |slots| ==> weight(slots[i]) <= most
    ensures InFlight(slots, weight) <= (|slots| - 1) * most
  {
    var n := |slots| - 1;
    if k < n {
      InFlightElsewhere(slots[..n], weight, k, most);
    } else {
      InFlightIsAtMost(slots[..n], weight, most);
    }
  }

  lemma {:induction false} NothingInFlight(slots: seq<Slot>, weight: Slot -> int)
    requires forall i :: 0 <= i < |slots| ==> weight(slots[i]) == 0
    ensures InFlight(slots, weight) == 0
  {
    if slots != [] {
      NothingInFlight(slots[..|slots| - 1], weight);
    }
  }

  // ---- What a step does to the counter --------------------------------------------------------------

  /** A step raises counter plus own holding only at an admitted check. */
  ghost predicate Charges(c: Option<Counter>, held: int, c': Option<Counter>, held': int) {
    c.Some? && c.value.spent >= 0 ==>
      && c'.Some? && c'.value.limit == c.value.limit && c'.value.spent >= 0
      && (c'.value.spent + held' <= c.value.spent + held
          || (c' == c && (c.value.limit > 0 ==> c.value.spent + held' <= c.value.limit)))
  }

  lemma RefusingKeepsCounter(b: Books, call: Call, reservation: Option<Id>)
    ensures Refuse(b, call, reservation).0.counter == b.counter && Abort(b, reservation).0.counter == b.counter
    ensures LogRefusal(b, call).counter == b.counter
  {
  }

  lemma PricingKeepsCounter(b: Books, call: Call, work: Work, reservation: Option<Id>)
    ensures Pricing(b, call, work, reservation).0.counter == b.counter
  {
    hide FinalEffects, Refuse;
    RefusingKeepsCounter(b, call, reservation);
  }

  lemma WorkingKeepsCounter(b: Books, call: Call, reservation: Option<Id>)
    ensures Working(b, call, reservation).0.counter == b.counter
  {
    hide Pricing, Refuse, ResolveDraft, CostOfLog;
    RefusingKeepsCounter(b, call, reservation);
    if Execute(b, call).Some? {
      PricingKeepsCounter(Execute(b, call).value.0, call, Execute(b, call).value.1, reservation);
    }
  }

  lemma ClaimingKeepsCounter(b: Books, call: Call, s: Stage, fails: bool)
    ensures s.Resolved? ==> Reading(b, call, s).0.counter == b.counter
    ensures s.Claiming? ==> Deleting(b, call, s, fails).0.counter == b.counter
    ensures s.Worked? ==> Logging(b, call, s, fails).0.counter == b.counter
    ensures s.Logged? ==> Acting(b, call, s, fails).0.counter == b.counter
  {
    hide Pricing, Refuse, Abort, Balance, Reverse, Resolvable;
    if !s.Entered? {
      RefusingKeepsCounter(b, call, s.reservation);
    }
    if s.Claiming? {
      PricingKeepsCounter(b.(pending := b.pending - {s.draft}), call, ClaimedBy(call, s.draft, s.proposer), s.reservation);
    }
  }

  lemma ResolvingKeepsCounter(b: Books, work: Work, logId: Id)
    requires Resolve(b, work, logId).Some?
    ensures Resolve(b, work, logId).value.counter == b.counter
  {
    hide HasPlatform, Post;
  }

  lemma FinishingBounded(b: Books, call: Call, s: Stage, fails: bool)
    requires s.Summed? || s.Checked? || s.Flipped?
    ensures Ceiling.Bounded(b.counter, Finishing(b, call, s, fails).0.counter, 0)
  {
    hide Abort, Resolve;
    RefusingKeepsCounter(b, call, s.reservation);
    if s.Checked? && Resolve(b, s.work, s.logId).Some? {
      ResolvingKeepsCounter(b, s.work, s.logId);
    }
  }

  lemma EnteringKeepsCounter(b: Books, call: Call, now: int, prune: bool)
    ensures Entering(b, call, now, prune).0.counter == b.counter
  {
    hide Gate, Permitted, IsActive, LogRefusal;
    Ceiling.GatingKeepsCounter(b, call, now, prune);
    RefusingKeepsCounter(Gate(b, call, now, prune).0, call, None);
  }

  lemma AuthorizingCharges(b: Books, call: Call)
    ensures Charges(b.counter, 0, Authorizing(b, call).0.counter, Held(Authorizing(b, call).1))
  {
    hide Estimate;
  }

  lemma SettlingCharges(b: Books, call: Call, s: Stage, fails: bool)
    requires s.Applied?
    ensures Charges(b.counter, Held(Some(Flight(call, s))), Settling(b, call, s, fails).0.counter, 0)
  {
    hide Estimate, SetReservation, RecordSpend;
    Ceiling.SpendBounded(b, Estimate(call), s.reservation, s.logId);
  }

  /** A step keeps the slot's call, or empties the slot; only an empty slot is entered. */
  ghost predicate SlotFollows(slot: Slot, action: Action, slot': Slot) {
    slot'.Some? ==>
      if slot.Some? then slot'.value.call == slot.value.call && (slot'.value.stage.Entered? ==> slot' == slot)
      else action.Enter? && slot'.value == Flight(action.call, Entered)
  }

  lemma AdvanceFollows(b: Books, slot: Slot, action: Action)
    ensures SlotFollows(slot, action, Advance(b, slot, action).1)
  {
    hide Estimate, Execute, Gate, Permitted, Reserve, FinalEffects, LogRefusal, SetReservation, AppendLog, RecordSpend, Post,
         Balance, Resolve, Resolvable, ResolveDraft;
  }

  lemma AdvanceCharges(b: Books, slot: Slot, action: Action)
    ensures Charges(b.counter, Held(slot), Advance(b, slot, action).0.counter, Held(Advance(b, slot, action).1))
  {
    AdvanceFollows(b, slot, action);
    hide Estimate, Entering, Authorizing, Working, Reading, Deleting, Logging, Acting, Finishing, RecordSpend;
    match slot
    case None =>
      if action.Enter? { EnteringKeepsCounter(b, action.call, action.now, action.prune); }
    case Some(Flight(call, s)) =>
      AuthorizingCharges(b, call);
      if s.Authorized? { WorkingKeepsCounter(b, call, s.reservation); }
      if action.Read? { ClaimingKeepsCounter(b, call, s, false); }
      if action.Claim? || action.Log? || action.Act? { ClaimingKeepsCounter(b, call, s, action.fails); }
      if action.Finish? && (s.Summed? || s.Checked? || s.Flipped?) { FinishingBounded(b, call, s, action.fails); }
      if action.Settle? && s.Applied? { SettlingCharges(b, call, s, action.fails); }
  }

  // ---- The ceiling --------------------------------------------------------------------------------

  /** Every run in flight costs at most c. */
  predicate EachAtMost(slots: seq<Slot>, c: nat) {
    forall i :: 0 <= i < |slots| ==> slots[i].Some? ==> Estimate(slots[i].value.call) <= c
  }

  predicate EnterAtMost(m: Move, c: nat) {
    m.Turn? && m.action.Enter? ==> Estimate(m.action.call) <= c
  }

  /** n runs of at most c may exceed the limit by n - 1 of them. */
  function Bound(slots: seq<Slot>, limit: int, c: nat): int {
    limit + (|slots| - 1) * c
  }

  /** A spend under a limit, with what the runs in flight may still charge. */
  predicate Fits(slots: seq<Slot>, counter: Counter, c: nat) {
    counter.spent >= 0 && (counter.limit > 0 ==> counter.spent + InFlight(slots, Held) <= Bound(slots, counter.limit, c))
  }

  predicate UnderCeiling(f: Floor, c: nat) {
    |f.slots| > 0 && EachAtMost(f.slots, c) && (f.books.counter.Some? ==> Fits(f.slots, f.books.counter.value, c))
  }

  /** The two writes no check precedes: a counter created while runs checked without one are in flight, and a rebuild. */
  predicate Overshoots(f: Floor, m: Move, c: nat) {
    || (m.SetBudget? && f.books.counter.None? && !Fits(f.slots, Counter(m.limit, 0), c))
    || (m.WriteTotal? && m.index < |f.totals| && f.books.counter.Some?
        && !Fits(f.slots, f.books.counter.value.(spent := f.totals[m.index]), c))
  }

  lemma OthersHold(slots: seq<Slot>, k: nat, c: nat)
    requires k < |slots| && EachAtMost(slots, c)
    ensures InFlight(slots[k := None], Held) <= (|slots| - 1) * c
  {
    hide Estimate;
    var others := slots[k := None];
    assert Held(others[k]) == 0;
    forall i | 0 <= i < |others| ensures Held(others[i]) <= c {
      assert others[i].Some? ==> others[i] == slots[i];
    }
    InFlightElsewhere(others, Held, k, c);
  }

  lemma TurnFits(slots: seq<Slot>, k: nat, slot': Slot, counter: Counter, counter': Counter, c: nat)
    requires k < |slots| && EachAtMost(slots, c) && Fits(slots, counter, c)
    requires Charges(Some(counter), Held(slots[k]), Some(counter'), Held(slot'))
    ensures Fits(slots[k := slot'], counter', c)
  {
    hide Held;
    assert slots[k := slot'][k := None] == slots[k := None];
    InFlightUpdates(slots, Held, k, slot');
    InFlightUpdates(slots, Held, k, None);
    OthersHold(slots, k, c);
    assert Held(None) == 0 by { EmptyHoldsNothing(); }
  }

  lemma EmptyHoldsNothing()
    ensures Held(None) == 0
  {
  }

  lemma NoCounterStays(b: Books, slot: Slot, action: Action)
    requires b.counter.None?
    ensures Advance(b, slot, action).0.counter.None?
  {
    hide Estimate, Entering, Working, Reading, Deleting, Logging, Acting, Resolve, Abort, LogRefusal, SetReservation;
    match slot
    case None =>
      if action.Enter? { EnteringKeepsCounter(b, action.call, action.now, action.prune); }
    case Some(Flight(call, s)) =>
      if !s.Entered? { RefusingKeepsCounter(b, call, s.reservation); }
      RefusingKeepsCounter(b, call, None);
      if s.Authorized? { WorkingKeepsCounter(b, call, s.reservation); }
      if action.Read? { ClaimingKeepsCounter(b, call, s, false); }
      if action.Claim? || action.Log? || action.Act? { ClaimingKeepsCounter(b, call, s, action.fails); }
      if s.Checked? && Resolve(b, s.work, s.logId).Some? { ResolvingKeepsCounter(b, s.work, s.logId); }
      if s.Applied? {
        Ceiling.ReservingKeepsCounter(b.(counter := Charge(b.counter, Estimate(call))), s.reservation, Settled(s.logId));
      }
  }

  lemma TurnKeepsCeiling(f: Floor, k: nat, action: Action, lost: bool, c: nat)
    requires UnderCeiling(f, c) && EnterAtMost(Turn(k, action, lost), c)
    ensures UnderCeiling(Step(f, Turn(k, action, lost)), c)
  {
    if k < |f.slots| {
      hide Advance, Advanced, Estimate, Fits, Charges;
      AdvancedIsAdvance(f.books, f.slots[k], action, lost);
      AdvanceCharges(f.books, f.slots[k], action);
      AdvanceFollows(f.books, f.slots[k], action);
      var f' := Step(f, Turn(k, action, lost));
      forall i | 0 <= i < |f.slots| && f'.slots[i].Some? ensures Estimate(f'.slots[i].value.call) <= c {
        assert i != k ==> f'.slots[i] == f.slots[i];
      }
      if f.books.counter.None? {
        NoCounterStays(f.books, f.slots[k], action);
      } else {
        ChargesKeepCounter(f.books.counter, f'.books.counter, f, c, Held(f.slots[k]), Held(f'.slots[k]));
        TurnFits(f.slots, k, f'.slots[k], f.books.counter.value, f'.books.counter.value, c);
      }
    }
  }

  lemma ChargesKeepCounter(counter: Option<Counter>, counter': Option<Counter>, f: Floor, c: nat, held: int, held': int)
    requires counter.Some? && Fits(f.slots, counter.value, c) && Charges(counter, held, counter', held')
    ensures counter'.Some?
  {
  }

  /** A move keeps the ceiling exactly when it is not one of the two unchecked writes past it. */
  lemma StepKeepsCeilingIff(f: Floor, m: Move, c: nat)
    requires UnderCeiling(f, c) && EnterAtMost(m, c)
    ensures UnderCeiling(Step(f, m), c) <==> !Overshoots(f, m, c)
  {
    if m.Turn? {
      TurnKeepsCeiling(f, m.slot, m.action, m.lost, c);
    }
    hide Advanced, RebuiltSpend, Fits, EachAtMost;
  }

  /** The ceiling holds after each of these moves. */
  ghost predicate StaysUnder(f: Floor, moves: seq<Move>, c: nat) {
    forall k :: 0 <= k <= |moves| ==> UnderCeiling(Replay(f, moves[..k]), c)
  }

  ghost predicate NeverOvershoots(f: Floor, moves: seq<Move>, c: nat) {
    forall k :: 0 <= k < |moves| ==> !Overshoots(Replay(f, moves[..k]), moves[k], c)
  }

  lemma {:induction false} UnderWhileNotOvershot(f: Floor, moves: seq<Move>, c: nat, n: nat)
    requires UnderCeiling(f, c) && (forall i :: 0 <= i < |moves| ==> EnterAtMost(moves[i], c)) && n <= |moves|
    requires forall k :: 0 <= k < n ==> !Overshoots(Replay(f, moves[..k]), moves[k], c)
    ensures UnderCeiling(Replay(f, moves[..n]), c)
  {
    hide UnderCeiling, Overshoots, Step, EnterAtMost;
    if n > 0 {
      UnderWhileNotOvershot(f, moves, c, n - 1);
      StepKeepsCeilingIff(Replay(f, moves[..n - 1]), moves[n - 1], c);
      ReplayNext(f, moves, n - 1);
    }
  }

  /** Main result, ceiling: with n slots and estimates of at most c, in every interleaving of runs, budget settings and
    * rebuilds, spent plus what the runs in flight may still charge stays within limit + (n - 1) * c exactly as long as no
    * counter is created under runs that exceed it and no rebuild writes a total that does. */
  lemma StaysUnderIff(f: Floor, moves: seq<Move>, c: nat)
    requires UnderCeiling(f, c) && forall i :: 0 <= i < |moves| ==> EnterAtMost(moves[i], c)
    ensures StaysUnder(f, moves, c) <==> NeverOvershoots(f, moves, c)
  {
    hide UnderCeiling, Overshoots, Step, EnterAtMost;
    if NeverOvershoots(f, moves, c) {
      forall k | 0 <= k <= |moves| ensures UnderCeiling(Replay(f, moves[..k]), c) {
        UnderWhileNotOvershot(f, moves, c, k);
      }
    }
    if StaysUnder(f, moves, c) {
      forall k | 0 <= k < |moves| ensures !Overshoots(Replay(f, moves[..k]), moves[k], c) {
        ReplayNext(f, moves, k);
        assert UnderCeiling(Replay(f, moves[..k]), c) && UnderCeiling(Replay(f, moves[..k + 1]), c);
        StepKeepsCeilingIff(Replay(f, moves[..k]), moves[k], c);
      }
    }
  }

  /** A late counter is harmless when its limit covers one estimate, or when no run past the gate has an estimate. */
  lemma LateCounterFits(f: Floor, limit: int, c: nat)
    requires UnderCeiling(f, c) && f.books.counter.None?
    requires limit >= c || forall i :: 0 <= i < |f.slots| ==> Held(f.slots[i]) == 0
    ensures !Overshoots(f, SetBudget(limit), c)
  {
    if limit >= c {
      forall i | 0 <= i < |f.slots| ensures Held(f.slots[i]) <= c {
        assert f.slots[i].Some? ==> Estimate(f.slots[i].value.call) <= c;
      }
      hide Held;
      InFlightIsAtMost(f.slots, Held, c);
      Distributes(|f.slots|, c);
    } else {
      NothingInFlight(f.slots, Held);
      assert (|f.slots| - 1) * c >= 0;
    }
  }

  lemma Distributes(n: int, c: int)
    ensures n * c == c + (n - 1) * c
  {
  }

  // ---- The reservation table ------------------------------------------------------------------------

  function OpenIds(reservations: map<Id, Reservation>): set<Id> {
    set id | id in reservations && reservations[id].status == Reserved
  }

  /** The reservation a run in flight holds. */
  function Live(slot: Slot): Option<Id> {
    if slot.None? || slot.value.stage.Entered? then None else slot.value.stage.reservation
  }

  function Reserving(slot: Slot): int {
    if Live(slot).None? then 0 else Estimate(slot.value.call)
  }

  /** A settlement that fails does not come to its reservation. */
  predicate FailsToSettle(slot: Slot, action: Action) {
    slot.Some? && slot.value.stage.Applied? && Live(slot).Some? && action.Settle? && action.fails && Estimate(slot.value.call) > 0
  }

  /** A run ends with its row open: its settlement fails, or the update of its reservation is lost. */
  predicate IsLeak(b: Books, slot: Slot, action: Action, lost: bool) {
    FailsToSettle(slot, action) || (lost && Live(slot).Some? && Advance(b, slot, action).1.None?)
  }

  /** What a step does to the table and the slot's reservation. */
  datatype Effect = Untouched | Opens(id: Id) | Closes(id: Id) | Leaks(id: Id)

  function EffectOf(b: Books, slot: Slot, action: Action, lost: bool): Effect {
    var slot' := Advance(b, slot, action).1;
    if Live(slot') == Live(slot) then Untouched
    else if Live(slot).None? then Opens(b.next)
    else if IsLeak(b, slot, action, lost) then Leaks(Live(slot).value)
    else Closes(Live(slot).value)
  }

  ghost predicate SameElsewhere(r: map<Id, Reservation>, r': map<Id, Reservation>, id: Id) {
    r'.Keys == r.Keys + {id} && forall k :: k in r && k != id ==> r'[k] == r[k]
  }

  ghost predicate Shows(b: Books, slot: Slot, b': Books, slot': Slot, e: Effect) {
    && b'.next >= b.next
    && match e
       case Untouched =>
         && b'.reservations == b.reservations && Live(slot') == Live(slot)
         && (Live(slot).Some? ==> slot'.value.call == slot.value.call)
       case Opens(id) =>
         && id == b.next < b'.next && Live(slot) == None && Live(slot') == Some(id) && Estimate(slot'.value.call) > 0
         && b'.reservations == b.reservations[id := Reservation(Estimate(slot'.value.call), Reserved)]
       case Closes(id) =>
         && Live(slot) == Some(id) && Live(slot') == None && id in b.reservations
         && SameElsewhere(b.reservations, b'.reservations, id)
         && b'.reservations[id].status != Reserved && b'.reservations[id].amount == b.reservations[id].amount
       case Leaks(id) => Live(slot) == Some(id) && Live(slot') == None && b'.reservations == b.reservations
  }

  /** The row of a run's reservation is open, for its estimate. */
  ghost predicate RowIsOpen(b: Books, slot: Slot) {
    Live(slot).Some? ==>
      var id, estimate := Live(slot).value, Estimate(slot.value.call);
      id in b.reservations && b.reservations[id] == Reservation(estimate, Reserved) && estimate > 0
  }

  /** The steps that leave the table alone. */
  ghost predicate SameTable(b: Books, b': Books) {
    b'.reservations == b.reservations && b'.next >= b.next
  }

  /** A slot's reservation row is closed, or there is none. */
  ghost predicate ClosesRow(b: Books, b': Books, reservation: Option<Id>) {
    && b'.next >= b.next
    && if reservation.None? then b'.reservations == b.reservations
       else reservation.value in b.reservations && SameElsewhere(b.reservations, b'.reservations, reservation.value)
            && b'.reservations[reservation.value].status != Reserved
            && b'.reservations[reservation.value].amount == b.reservations[reservation.value].amount
  }

  lemma RefusingCloses(b: Books, call: Call, reservation: Option<Id>)
    requires reservation.Some? ==> reservation.value in b.reservations
    ensures ClosesRow(b, Refuse(b, call, reservation).0, reservation) && Refuse(b, call, reservation).1 == None
    ensures ClosesRow(b, Abort(b, reservation).0, reservation) && Abort(b, reservation).1 == None
    ensures SameTable(b, LogRefusal(b, call))
  {
  }

  lemma GatingSameTable(b: Books, call: Call, now: int, prune: bool)
    ensures SameTable(b, Gate(b, call, now, prune).0)
  {
    hide RateLimit.CheckAndIncrement;
  }

  lemma EnteringSameTable(b: Books, call: Call, now: int, prune: bool)
    ensures SameTable(b, Entering(b, call, now, prune).0)
  {
    hide Permitted, IsActive, Gate, LogRefusal;
    GatingSameTable(b, call, now, prune);
    RefusingCloses(Gate(b, call, now, prune).0, call, None);
  }

  lemma ExecutingSameTable(b: Books, call: Call)
    requires Execute(b, call).Some?
    ensures SameTable(b, Execute(b, call).value.0)
  {
    hide ResolveDraft, CostOfLog;
  }

  lemma PricingShows(b: Books, call: Call, work: Work, reservation: Option<Id>)
    requires reservation.Some? ==> reservation.value in b.reservations
    ensures var next := Pricing(b, call, work, reservation);
            if next.1.None? then ClosesRow(b, next.0, reservation) else SameTable(b, next.0) && Live(next.1) == reservation
  {
    hide FinalEffects, Refuse, ClosesRow;
    RefusingCloses(b, call, reservation);
  }

  lemma ClosesOn(b: Books, b': Books, b'': Books, reservation: Option<Id>)
    requires SameTable(b, b') && ClosesRow(b', b'', reservation)
    ensures ClosesRow(b, b'', reservation)
  {
  }

  lemma WorkingShows(b: Books, call: Call, reservation: Option<Id>)
    requires reservation.Some? ==> reservation.value in b.reservations
    ensures var next := Working(b, call, reservation);
            if next.1.None? then ClosesRow(b, next.0, reservation) else SameTable(b, next.0) && Live(next.1) == reservation
  {
    hide Execute, Pricing, ResolveDraft, Refuse, ClosesRow;
    RefusingCloses(b, call, reservation);
    if Execute(b, call).Some? {
      var (executed, work) := Execute(b, call).value;
      ExecutingSameTable(b, call);
      PricingShows(executed, call, work, reservation);
      if Pricing(executed, call, work, reservation).1.None? {
        ClosesOn(b, executed, Pricing(executed, call, work, reservation).0, reservation);
      }
    }
  }

  lemma ResolvingSameTable(b: Books, work: Work, logId: Id)
    requires Resolve(b, work, logId).Some?
    ensures SameTable(b, Resolve(b, work, logId).value)
  {
    hide HasPlatform, Post;
  }

  /** The steps between the gate and the settlement either keep the reservation or close it. */
  lemma MiddleShows(b: Books, call: Call, s: Stage, action: Action)
    requires !s.Entered? && !s.Applied? && (s.reservation.Some? ==> s.reservation.value in b.reservations)
    ensures var next := Advance(b, Some(Flight(call, s)), action);
            if next.1.None? then ClosesRow(b, next.0, s.reservation) else SameTable(b, next.0) && Live(next.1) == s.reservation
  {
    hide Refuse, Abort, Working, Pricing, Resolve, Balance, Reverse, Resolvable, ClosesRow;
    RefusingCloses(b, call, s.reservation);
    if s.Authorized? {
      WorkingShows(b, call, s.reservation);
    }
    if s.Claiming? {
      var deleted := b.(pending := b.pending - {s.draft});
      var work := ClaimedBy(call, s.draft, s.proposer);
      PricingShows(deleted, call, work, s.reservation);
      if Pricing(deleted, call, work, s.reservation).1.None? {
        ClosesOn(b, deleted, Pricing(deleted, call, work, s.reservation).0, s.reservation);
      }
    }
    if s.Checked? && Resolve(b, s.work, s.logId).Some? {
      ResolvingSameTable(b, s.work, s.logId);
    }
  }

  lemma EndShows(b: Books, slot: Slot, action: Action)
    requires slot.Some? && (slot.value.stage.Entered? || slot.value.stage.Applied?) && RowIsOpen(b, slot)
    ensures Shows(b, slot, Advance(b, slot, action).0, Advance(b, slot, action).1, EffectOf(b, slot, action, false))
  {
    AdvanceFollows(b, slot, action);
    hide Estimate;
  }

  lemma AdvanceShows(b: Books, slot: Slot, action: Action)
    requires RowIsOpen(b, slot)
    ensures Shows(b, slot, Advance(b, slot, action).0, Advance(b, slot, action).1, EffectOf(b, slot, action, false))
  {
    AdvanceFollows(b, slot, action);
    match slot
    case None =>
      hide Entering;
      if action.Enter? {
        EnteringSameTable(b, action.call, action.now, action.prune);
      }
    case Some(Flight(call, s)) =>
      if s.Entered? || s.Applied? {
        EndShows(b, slot, action);
      } else {
        hide Advance, Estimate;
        MiddleShows(b, call, s, action);
      }
  }

  /** A lost update leaves the row as it was. */
  lemma AdvancedShows(b: Books, slot: Slot, action: Action, lost: bool)
    requires RowIsOpen(b, slot)
    ensures Shows(b, slot, Advanced(b, slot, action, lost).0, Advanced(b, slot, action, lost).1, EffectOf(b, slot, action, lost))
  {
    AdvanceShows(b, slot, action);
    hide Advance, Estimate, SameElsewhere;
  }

  ghost function LiveIds(slots: seq<Slot>): set<Id> {
    set i | 0 <= i < |slots| && Live(slots[i]).Some? :: Live(slots[i]).value
  }

  /** The open rows are those of the runs in flight, each its own, and the leaked ones. */
  ghost predicate Booked(f: Floor, leaked: set<Id>) {
    && (forall id :: id in f.books.reservations ==> id < f.books.next)
    && (forall i :: 0 <= i < |f.slots| ==> RowIsOpen(f.books, f.slots[i]))
    && (forall i, j :: 0 <= i < j < |f.slots| && Live(f.slots[i]).Some? ==> Live(f.slots[i]) != Live(f.slots[j]))
    && (forall i :: 0 <= i < |f.slots| && Live(f.slots[i]).Some? ==> Live(f.slots[i]).value !in leaked)
    && OpenIds(f.books.reservations) == LiveIds(f.slots) + leaked
  }

  function LeakOf(f: Floor, m: Move): set<Id> {
    if m.Turn? && m.slot < |f.slots| && IsLeak(f.books, f.slots[m.slot], m.action, m.lost) then {Live(f.slots[m.slot]).value} else {}
  }

  /** The reservations of the runs that ended with their row open. */
  function Leaked(f: Floor, moves: seq<Move>, before: set<Id>): set<Id> {
    if moves == [] then before
    else Leaked(f, moves[..|moves| - 1], before) + LeakOf(Replay(f, moves[..|moves| - 1]), moves[|moves| - 1])
  }

  lemma LiveIdsUpdate(slots: seq<Slot>, k: nat, slot': Slot)
    requires k < |slots|
    requires forall i, j :: 0 <= i < j < |slots| && Live(slots[i]).Some? ==> Live(slots[i]) != Live(slots[j])
    ensures LiveIds(slots[k := slot'])
         == LiveIds(slots) - (if Live(slots[k]).Some? then {Live(slots[k]).value} else {})
                           + (if Live(slot').Some? then {Live(slot').value} else {})
  {
    hide Live;
    var slots' := slots[k := slot'];
    forall id ensures id in LiveIds(slots') <==>
        (id in LiveIds(slots) && Live(slots[k]) != Some(id)) || Live(slot') == Some(id)
    {
      if id in LiveIds(slots') {
        var i :| 0 <= i < |slots'| && Live(slots'[i]).Some? && Live(slots'[i]).value == id;
        assert i != k ==> slots'[i] == slots[i];
      }
      if id in LiveIds(slots) && Live(slots[k]) != Some(id) {
        var i :| 0 <= i < |slots| && Live(slots[i]).Some? && Live(slots[i]).value == id;
        assert slots'[i] == slots[i];
      }
      if Live(slot') == Some(id) {
        assert slots'[k] == slot';
      }
    }
  }

  lemma OpenIdsAfter(b: Books, slot: Slot, b': Books, slot': Slot, e: Effect)
    requires Shows(b, slot, b', slot', e) && RowIsOpen(b, slot)
    ensures OpenIds(b'.reservations)
         == match e
            case Opens(id) => OpenIds(b.reservations) + {id}
            case Closes(id) => OpenIds(b.reservations) - {id}
            case _ => OpenIds(b.reservations)
  {
    hide Estimate;
  }

  lemma RowsStayOpen(f: Floor, leaked: set<Id>, k: nat, b': Books, slots': seq<Slot>, e: Effect)
    requires Booked(f, leaked) && k < |f.slots| == |slots'| && slots' == f.slots[k := slots'[k]]
    requires Shows(f.books, f.slots[k], b', slots'[k], e)
    ensures forall i :: 0 <= i < |slots'| ==> RowIsOpen(b', slots'[i])
  {
    hide Estimate;
    forall i | 0 <= i < |slots'| ensures RowIsOpen(b', slots'[i]) {
      assert RowIsOpen(f.books, f.slots[i]) && RowIsOpen(f.books, f.slots[k]);
      if i != k {
        assert slots'[i] == f.slots[i] && (Live(f.slots[i]).Some? ==> Live(f.slots[i]) != Live(f.slots[k]));
      }
    }
  }

  lemma ReservationsStayKnown(b: Books, slot: Slot, b': Books, slot': Slot, e: Effect)
    requires Shows(b, slot, b', slot', e) && forall id :: id in b.reservations ==> id < b.next
    ensures forall id :: id in b'.reservations ==> id < b'.next
  {
    hide Live, Estimate;
  }

  lemma EffectIsLeak(f: Floor, k: nat, action: Action, lost: bool)
    requires k < |f.slots| && RowIsOpen(f.books, f.slots[k])
    ensures var e := EffectOf(f.books, f.slots[k], action, lost);
            LeakOf(f, Turn(k, action, lost)) == if e.Leaks? then {e.id} else {}
  {
    hide Advance, Estimate, RowIsOpen;
    if FailsToSettle(f.slots[k], action) {
      FailureEmpties(f.books, f.slots[k], action);
    }
  }

  lemma FailureEmpties(b: Books, slot: Slot, action: Action)
    requires FailsToSettle(slot, action)
    ensures Advance(b, slot, action) == (b, None)
  {
    hide Estimate;
  }

  lemma TurnBooks(f: Floor, k: nat, action: Action, lost: bool, leaked: set<Id>)
    requires Booked(f, leaked)
    ensures Booked(Step(f, Turn(k, action, lost)), leaked + LeakOf(f, Turn(k, action, lost)))
  {
    if k < |f.slots| {
      var f' := Step(f, Turn(k, action, lost));
      var e := EffectOf(f.books, f.slots[k], action, lost);
      assert RowIsOpen(f.books, f.slots[k]);
      AdvancedShows(f.books, f.slots[k], action, lost);
      EffectIsLeak(f, k, action, lost);
      hide Advanced, EffectOf, RowIsOpen, LeakOf, OpenIds, LiveIds;
      ReservationsStayKnown(f.books, f.slots[k], f'.books, f'.slots[k], e);
      RowsStayOpen(f, leaked, k, f'.books, f'.slots, e);
      OpenIdsAfter(f.books, f.slots[k], f'.books, f'.slots[k], e);
      LiveIdsUpdate(f.slots, k, f'.slots[k]);
      TurnKeepsApart(f, leaked, k, f', e);
      SetsAddUp(OpenIds(f.books.reservations), LiveIds(f.slots), leaked, e, f, k);
    }
  }

  /** No two runs hold one reservation, and none holds a leaked one. */
  lemma TurnKeepsApart(f: Floor, leaked: set<Id>, k: nat, f': Floor, e: Effect)
    requires Booked(f, leaked) && k < |f.slots| == |f'.slots| && f'.slots == f.slots[k := f'.slots[k]]
    requires Shows(f.books, f.slots[k], f'.books, f'.slots[k], e)
    ensures var leaked' := leaked + if e.Leaks? then {e.id} else {};
            && (forall i, j :: 0 <= i < j < |f'.slots| && Live(f'.slots[i]).Some? ==> Live(f'.slots[i]) != Live(f'.slots[j]))
            && (forall i :: 0 <= i < |f'.slots| && Live(f'.slots[i]).Some? ==> Live(f'.slots[i]).value !in leaked')
  {
    forall i | 0 <= i < |f.slots| && Live(f.slots[i]).Some? ensures Live(f.slots[i]).value < f.books.next {
      assert RowIsOpen(f.books, f.slots[i]);
    }
    forall id | id in leaked ensures id < f.books.next {
      assert id in OpenIds(f.books.reservations);
    }
    hide RowIsOpen, Live, OpenIds, LiveIds, Estimate;
  }

  lemma SetsAddUp(open: set<Id>, live: set<Id>, leaked: set<Id>, e: Effect, f: Floor, k: nat)
    requires k < |f.slots| && live == LiveIds(f.slots) && open == live + leaked
    requires Live(f.slots[k]).Some? ==> Live(f.slots[k]).value !in leaked
    ensures e.Closes? && Live(f.slots[k]) == Some(e.id) ==> open - {e.id} == (live - {e.id}) + leaked
    ensures e.Leaks? && Live(f.slots[k]) == Some(e.id) ==> open == (live - {e.id}) + (leaked + {e.id})
    ensures e.Opens? ==> open + {e.id} == (live + {e.id}) + leaked
    ensures Live(f.slots[k]).Some? ==> live - {Live(f.slots[k]).value} + {Live(f.slots[k]).value} == live
  {
  }

  lemma OthersBook(f: Floor, m: Move, leaked: set<Id>)
    requires Booked(f, leaked) && !m.Turn?
    ensures Booked(Step(f, m), leaked)
  {
    var f' := Step(f, m);
    hide Step, Live, OpenIds, LiveIds, Estimate;
    BesideTheRuns(f, m);
    forall i | 0 <= i < |f'.slots| ensures RowIsOpen(f'.books, f'.slots[i]) {
      assert RowIsOpen(f.books, f.slots[i]);
    }
  }

  /** Main result, table: in every interleaving the open rows of budget_reservations are those of the runs in flight and
    * those left by runs that ended without closing theirs. */
  lemma {:induction false} OpenRowsAreRunsOrLeaks(f: Floor, moves: seq<Move>, leaked: set<Id>)
    requires Booked(f, leaked)
    ensures Booked(Replay(f, moves), Leaked(f, moves, leaked))
  {
    hide Booked, Step;
    if moves != [] {
      var before, m := Replay(f, moves[..|moves| - 1]), moves[|moves| - 1];
      OpenRowsAreRunsOrLeaks(f, moves[..|moves| - 1], leaked);
      if m.Turn? {
        TurnBooks(before, m.slot, m.action, m.lost, Leaked(f, moves[..|moves| - 1], leaked));
      } else {
        OthersBook(before, m, Leaked(f, moves[..|moves| - 1], leaked));
        assert LeakOf(before, m) == {} && Leaked(f, moves, leaked) == Leaked(f, moves[..|moves| - 1], leaked);
      }
    }
  }

  ghost predicate HasRun(slots: seq<Slot>, id: Id) {
    exists i :: 0 <= i < |slots| && Live(slots[i]) == Some(id)
  }

  /** Every open row belongs to a run in flight exactly when no run ended with its row open: when no settlement with a
    * reservation failed, and no update of a reservation was lost. */
  lemma OpenRowsHaveRunsIff(f: Floor, moves: seq<Move>)
    requires Booked(f, {})
    ensures (forall id :: id in OpenIds(Replay(f, moves).books.reservations) ==> HasRun(Replay(f, moves).slots, id))
       <==> Leaked(f, moves, {}) == {}
  {
    OpenRowsAreRunsOrLeaks(f, moves, {});
    var f', leaked := Replay(f, moves), Leaked(f, moves, {});
    forall id ensures id in LiveIds(f'.slots) <==> HasRun(f'.slots, id) {
      if HasRun(f'.slots, id) {
        var i :| 0 <= i < |f'.slots| && Live(f'.slots[i]) == Some(id);
        assert Live(f'.slots[i]).Some?;
      }
    }
    forall id | id in leaked ensures id !in LiveIds(f'.slots) && id in OpenIds(f'.books.reservations) {}
    hide Live, OpenIds, LiveIds, HasRun, RowIsOpen;
    if leaked != {} {
      var id :| id in leaked;
      assert id in OpenIds(f'.books.reservations) && !HasRun(f'.slots, id);
    }
  }

  // ---- The table's total ----------------------------------------------------------------------------

  /** The amounts of a set of rows below an id. */
  function Amounts(reservations: map<Id, Reservation>, below: Id, ids: set<Id>): int {
    if below == 0 then 0
    else
      Amounts(reservations, below - 1, ids)
      + if below - 1 in ids && below - 1 in reservations then reservations[below - 1].amount else 0
  }

  /** The sum of the open rows. */
  function OpenReserved(b: Books): int {
    Amounts(b.reservations, b.next, OpenIds(b.reservations))
  }

  lemma {:induction false} AmountsSplit(r: map<Id, Reservation>, below: Id, s: set<Id>, t: set<Id>)
    requires s !! t
    ensures Amounts(r, below, s + t) == Amounts(r, below, s) + Amounts(r, below, t)
  {
    if below > 0 {
      AmountsSplit(r, below - 1, s, t);
    }
  }

  lemma {:induction false} AmountOfOne(r: map<Id, Reservation>, below: Id, id: Id)
    ensures Amounts(r, below, {id}) == if id < below && id in r then r[id].amount else 0
  {
    if below > 0 {
      AmountOfOne(r, below - 1, id);
    }
  }

  lemma {:induction false} AmountOfNone(r: map<Id, Reservation>, below: Id)
    ensures Amounts(r, below, {}) == 0
  {
    if below > 0 {
      AmountOfNone(r, below - 1);
    }
  }

  /** The rows of the runs in flight add up to their estimates. */
  lemma {:induction false} LiveAmounts(b: Books, slots: seq<Slot>)
    requires forall i :: 0 <= i < |slots| ==> RowIsOpen(b, slots[i])
    requires forall i, j :: 0 <= i < j < |slots| && Live(slots[i]).Some? ==> Live(slots[i]) != Live(slots[j])
    requires forall id :: id in b.reservations ==> id < b.next
    ensures Amounts(b.reservations, b.next, LiveIds(slots)) == InFlight(slots, Reserving)
  {
    hide Estimate;
    if slots == [] {
      assert LiveIds(slots) == {};
      AmountOfNone(b.reservations, b.next);
    } else {
      var n := |slots| - 1;
      LiveAmounts(b, slots[..n]);
      assert RowIsOpen(b, slots[n]);
      LiveIdsOfLast(slots);
      var last := if Live(slots[n]).Some? then {Live(slots[n]).value} else {};
      AmountsSplit(b.reservations, b.next, LiveIds(slots[..n]), last);
      if Live(slots[n]).Some? {
        AmountOfOne(b.reservations, b.next, Live(slots[n]).value);
      } else {
        AmountOfNone(b.reservations, b.next);
      }
    }
  }

  lemma LiveIdsOfLast(slots: seq<Slot>)
    requires slots != []
    requires forall i, j :: 0 <= i < j < |slots| && Live(slots[i]).Some? ==> Live(slots[i]) != Live(slots[j])
    ensures var n := |slots| - 1;
            var last := if Live(slots[n]).Some? then {Live(slots[n]).value} else {};
            LiveIds(slots) == LiveIds(slots[..n]) + last && LiveIds(slots[..n]) !! last
  {
    hide Live;
    var n := |slots| - 1;
    forall id ensures id in LiveIds(slots) <==> id in LiveIds(slots[..n]) || Live(slots[n]) == Some(id) {
      if id in LiveIds(slots) {
        var i :| 0 <= i < |slots| && Live(slots[i]).Some? && Live(slots[i]).value == id;
        assert i < n ==> slots[..n][i] == slots[i];
      }
      if id in LiveIds(slots[..n]) {
        var i :| 0 <= i < n && Live(slots[..n][i]).Some? && Live(slots[..n][i]).value == id;
        assert slots[i] == slots[..n][i];
      }
    }
  }

  /** The table's open total is what the runs in flight reserve plus what ended runs left. */
  lemma OpenReservedIs(f: Floor, leaked: set<Id>)
    requires Booked(f, leaked)
    ensures OpenReserved(f.books) == InFlight(f.slots, Reserving) + Amounts(f.books.reservations, f.books.next, leaked)
  {
    LiveAmounts(f.books, f.slots);
    forall id | id in leaked ensures id !in LiveIds(f.slots) {}
    hide LiveIds, OpenIds, RowIsOpen, Live, Amounts, Reserving;
    AmountsSplit(f.books.reservations, f.books.next, LiveIds(f.slots), leaked);
  }

  lemma {:induction false} ReservingIsHeld(b: Books, slots: seq<Slot>)
    requires forall i :: 0 <= i < |slots| ==> RowIsOpen(b, slots[i])
    ensures InFlight(slots, Reserving) <= InFlight(slots, Held)
  {
    hide Estimate;
    if slots != [] {
      ReservingIsHeld(b, slots[..|slots| - 1]);
      assert RowIsOpen(b, slots[|slots| - 1]);
    }
  }

  /** The ceiling of the table: spent plus the open rows stays within limit + (n - 1) * c plus what ended runs left. */
  lemma TableStaysUnder(f: Floor, moves: seq<Move>, c: nat)
    requires UnderCeiling(f, c) && Booked(f, {}) && (forall i :: 0 <= i < |moves| ==> EnterAtMost(moves[i], c))
    requires NeverOvershoots(f, moves, c)
    ensures var f', leaked := Replay(f, moves), Leaked(f, moves, {});
            var left := Amounts(f'.books.reservations, f'.books.next, leaked);
            && OpenReserved(f'.books) == InFlight(f'.slots, Reserving) + left
            && (f'.books.counter.Some? && f'.books.counter.value.limit > 0 ==>
                  f'.books.counter.value.spent + OpenReserved(f'.books) <= Bound(f'.slots, f'.books.counter.value.limit, c) + left)
  {
    var f', leaked := Replay(f, moves), Leaked(f, moves, {});
    OpenRowsAreRunsOrLeaks(f, moves, {});
    StaysUnderIff(f, moves, c);
    assert moves[..|moves|] == moves;
    assert UnderCeiling(f', c);
    hide Replay, Leaked;
    OpenReservedIs(f', leaked);
    BookedHolds(f', leaked);
    hide OpenReserved, Amounts, Booked;
  }

  lemma BookedHolds(f: Floor, leaked: set<Id>)
    requires Booked(f, leaked)
    ensures InFlight(f.slots, Reserving) <= InFlight(f.slots, Held)
  {
    ReservingIsHeld(f.books, f.slots);
  }
}
