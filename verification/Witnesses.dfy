/** Interleavings that reach the bounds and show what breaks past them, each from a floor with no run in flight. */
module Witnesses {
  import opened Common
  import opened Books
  import opened Sums
  import opened Engine
  import opened Interleaving
  import opened Reservations
  import RateLimit

  ghost predicate AtRest(f: Floor) {
    forall i :: 0 <= i < |f.slots| ==> f.slots[i] == None
  }

  /** An active agent in an active covenant with a USD budget and no rate limit may propose. */
  predicate MayPropose(b: Books, agent: Id) {
    b.state == ACTIVE && IsActive(b, agent) && b.hourlyLimit <= 0 && BudgetCurrency(b) == "USD"
  }

  function Proposal(agent: Id, c: nat): Call {
    CallPropose(agent, 1, Some(c as real))
  }

  lemma ProposalCosts(agent: Id, c: nat)
    ensures Estimate(Proposal(agent, c)) == c
  {
  }

  /** Enter and Authorize. */
  function Opening(agent: Id, c: nat): seq<Action> {
    [Enter(Proposal(agent, c), 0, false)] + [Authorize]
  }

  function OpenedBooks(b: Books, c: nat): Books {
    if b.counter.None? then b
    else b.(reservations := b.reservations[b.next := Reservation(c, Reserved)], next := b.next + 1)
  }

  function OpenedSlot(b: Books, agent: Id, c: nat): Slot {
    Some(Flight(Proposal(agent, c), Authorized(if b.counter.None? then None else Some(b.next))))
  }

  lemma ProposalOpens(b: Books, agent: Id, c: nat)
    requires MayPropose(b, agent) && c > 0 && (b.counter.Some? ==> Engine.Admits(b.counter.value, c))
    ensures Play(b, None, Opening(agent, c)) == (OpenedBooks(b, c), OpenedSlot(b, agent, c))
    ensures MayPropose(OpenedBooks(b, c), agent)
  {
    var call := Proposal(agent, c);
    ProposalCosts(agent, c);
    PlayJoins(b, None, [Enter(call, 0, false)], [Authorize]);
    PlayOne(b, None, Enter(call, 0, false));
    PlayOne(b, Some(Flight(call, Entered)), Authorize);
    hide Play, Estimate;
  }

  /** The rest of a proposal, with or without a failing settlement. */
  function Closing(agent: Id, c: nat, fault: Fault): seq<Action> {
    Steps(Proposal(agent, c), fault)[1..]
  }

  lemma ProposalCloses(b: Books, agent: Id, c: nat, reservation: Option<Id>, fault: Fault)
    requires MayPropose(b, agent) && c > 0 && (fault == NoFault || fault == SettleFails)
    ensures var played := Play(b, Some(Flight(Proposal(agent, c), Authorized(reservation))), Closing(agent, c, fault));
            var b' := played.0;
            && played.1 == None && MayPropose(b', agent) && b'.next >= b.next
            && b'.counter == (if fault == NoFault then Charge(b.counter, c) else b.counter)
            && (fault == SettleFails ==> b'.reservations == b.reservations)
  {
    var call := Proposal(agent, c);
    SoloPerforms(b, call, reservation, fault);
    hide Play, Advance;
    ProposalCosts(agent, c);
    assert FinalEffects(Execute(b, call).value.0, call, Drafted(b.next)) == Effects(0, c, "USD");
    hide FinalEffects;
  }

  // ---- The ceiling is reached ---------------------------------------------------------------------

  ghost predicate Opened(slot: Slot, agent: Id, c: nat) {
    slot.Some? && slot.value.call == Proposal(agent, c) && slot.value.stage.Authorized?
  }

  ghost predicate Cheap(moves: seq<Move>, c: nat) {
    forall i :: 0 <= i < |moves| ==> EnterAtMost(moves[i], c) && moves[i].Turn?
  }

  lemma TurnsAreCheap(k: nat, actions: seq<Action>, agent: Id, c: nat)
    requires forall i :: 0 <= i < |actions| ==> actions[i].Enter? ==> actions[i].call == Proposal(agent, c)
    ensures Cheap(TurnsOf(k, actions), c)
  {
    ProposalCosts(agent, c);
    hide Estimate;
  }

  lemma FillSlot(f: Floor, k: nat, agent: Id, c: nat) returns (moves: seq<Move>)
    requires k < |f.slots| && f.slots[k] == None && MayPropose(f.books, agent) && c > 0
    requires f.books.counter.Some? ==> Engine.Admits(f.books.counter.value, c)
    ensures Cheap(moves, c)
    ensures Replay(f, moves) == Floor(OpenedBooks(f.books, c), f.slots[k := OpenedSlot(f.books, agent, c)], f.totals)
    ensures MayPropose(Replay(f, moves).books, agent)
  {
    hide Play, Advance, Replay, MayPropose;
    ProposalOpens(f.books, agent, c);
    OneSlotPlays(f, k, Opening(agent, c));
    moves := TurnsOf(k, Opening(agent, c));
    TurnsAreCheap(k, Opening(agent, c), agent, c);
  }

  /** Opens a proposal in every slot from k on. */
  lemma FillSlots(f: Floor, k: nat, agent: Id, c: nat) returns (moves: seq<Move>)
    requires k <= |f.slots| && MayPropose(f.books, agent) && c > 0
    requires f.books.counter.Some? ==> Engine.Admits(f.books.counter.value, c)
    requires forall i :: k <= i < |f.slots| ==> f.slots[i] == None
    requires forall i :: 0 <= i < k ==> Opened(f.slots[i], agent, c)
    ensures Cheap(moves, c)
    ensures var f' := Replay(f, moves);
            && |f'.slots| == |f.slots| && MayPropose(f'.books, agent) && f'.books.counter == f.books.counter
            && forall i :: 0 <= i < |f'.slots| ==> Opened(f'.slots[i], agent, c)
    decreases |f.slots| - k
  {
    if k == |f.slots| {
      moves := [];
    } else {
      var first := FillSlot(f, k, agent, c);
      hide MayPropose, Replay;
      var f' := Replay(f, first);
      forall i | 0 <= i < k + 1 ensures Opened(f'.slots[i], agent, c) {
        assert i < k ==> f'.slots[i] == f.slots[i];
      }
      var rest := FillSlots(f', k + 1, agent, c);
      ReplayJoins(f, first, rest);
      moves := first + rest;
    }
  }

  lemma DrainSlot(f: Floor, k: nat, agent: Id, c: nat) returns (moves: seq<Move>)
    requires k < |f.slots| && MayPropose(f.books, agent) && c > 0 && Opened(f.slots[k], agent, c)
    ensures Cheap(moves, c)
    ensures var f' := Replay(f, moves);
            && f'.slots == f.slots[k := None] && f'.totals == f.totals && MayPropose(f'.books, agent)
            && f'.books.counter == Charge(f.books.counter, c)
  {
    var reservation := f.slots[k].value.stage.reservation;
    assert f.slots[k] == Some(Flight(Proposal(agent, c), Authorized(reservation)));
    hide Play, Advance, Replay, MayPropose, Opened, Proposal, Charge;
    ProposalCloses(f.books, agent, c, reservation, NoFault);
    OneSlotPlays(f, k, Closing(agent, c, NoFault));
    moves := TurnsOf(k, Closing(agent, c, NoFault));
    TurnsAreCheap(k, Closing(agent, c, NoFault), agent, c);
  }

  lemma CheapJoins(first: seq<Move>, rest: seq<Move>, c: nat)
    requires Cheap(first, c) && Cheap(rest, c)
    ensures Cheap(first + rest, c)
  {
  }

  /** Settles the proposals of every slot from k on. */
  lemma DrainSlots(f: Floor, k: nat, agent: Id, c: nat) returns (moves: seq<Move>)
    requires k <= |f.slots| && MayPropose(f.books, agent) && c > 0 && f.books.counter.Some?
    requires forall i :: k <= i < |f.slots| ==> Opened(f.slots[i], agent, c)
    ensures Cheap(moves, c)
    ensures var f' := Replay(f, moves);
            f'.books.counter == Some(f.books.counter.value.(spent := f.books.counter.value.spent + (|f.slots| - k) * c))
    decreases |f.slots| - k
  {
    if k == |f.slots| {
      moves := [];
    } else {
      var first := DrainSlot(f, k, agent, c);
      hide MayPropose, Replay, Opened, Cheap;
      var f' := Replay(f, first);
      forall i | k < i < |f'.slots| ensures Opened(f'.slots[i], agent, c) {
        assert f'.slots[i] == f.slots[i];
      }
      var rest := DrainSlots(f', k + 1, agent, c);
      ReplayJoins(f, first, rest);
      CheapJoins(first, rest, c);
      moves := first + rest;
      Distributes(|f.slots| - k, c);
    }
  }

  /** These moves enter no estimate above c, and bring the counter to limit + (n - 1) * c. */
  ghost predicate ReachesBound(f: Floor, moves: seq<Move>, c: nat)
    requires f.books.counter.Some?
  {
    && Cheap(moves, c)
    && var counter := Replay(f, moves).books.counter;
       counter.Some? && counter.value.spent == Bound(f.slots, f.books.counter.value.limit, c)
  }

  /** The bound is tight: from a counter with exactly c left, runs that all check before any settles reach it. */
  lemma CeilingIsReached(f: Floor, agent: Id, c: nat)
    requires |f.slots| > 0 && c > 0 && MayPropose(f.books, agent) && AtRest(f)
    requires f.books.counter.Some? && f.books.counter.value.limit == f.books.counter.value.spent + c
    ensures exists moves :: ReachesBound(f, moves, c)
  {
    hide MayPropose, Opened;
    var opening := FillSlots(f, 0, agent, c);
    var settling := DrainSlots(Replay(f, opening), 0, agent, c);
    ReplayJoins(f, opening, settling);
    Distributes(|f.slots|, c);
    hide Replay;
    assert ReachesBound(f, opening + settling, c);
  }

  // ---- Reservations pile up -------------------------------------------------------------------------

  lemma {:induction false} AmountsOfSame(r: map<Id, Reservation>, r': map<Id, Reservation>, below: Id, ids: set<Id>)
    requires forall id :: id < below ==> (id in r <==> id in r') && (id in r ==> r'[id] == r[id])
    ensures Amounts(r', below, ids) == Amounts(r, below, ids)
  {
    if below > 0 {
      AmountsOfSame(r, r', below - 1, ids);
    }
  }

  lemma {:induction false} AmountsAbove(r: map<Id, Reservation>, below: Id, top: Id, ids: set<Id>)
    requires below <= top && forall id :: id in ids ==> id < below
    ensures Amounts(r, top, ids) == Amounts(r, below, ids)
    decreases top
  {
    if below < top {
      AmountsAbove(r, below, top - 1, ids);
    }
  }

  ghost predicate RowsKnown(b: Books) {
    forall id :: id in b.reservations ==> id < b.next
  }

  lemma RowAdded(b: Books, b': Books, c: nat)
    requires RowsKnown(b) && b'.next > b.next && b'.reservations == b.reservations[b.next := Reservation(c, Reserved)]
    ensures RowsKnown(b') && OpenReserved(b') == OpenReserved(b) + c
  {
    var open := OpenIds(b.reservations);
    assert OpenIds(b'.reservations) == open + {b.next};
    AmountsSplit(b'.reservations, b'.next, open, {b.next});
    AmountOfOne(b'.reservations, b'.next, b.next);
    AmountsAbove(b'.reservations, b.next, b'.next, open);
    AmountsOfSame(b.reservations, b'.reservations, b.next, open);
  }

  /** Ends the run in this slot with a settlement that fails. */
  lemma LeakSlot(f: Floor, k: nat, agent: Id, c: nat) returns (moves: seq<Move>)
    requires k < |f.slots| && MayPropose(f.books, agent) && c > 0 && Opened(f.slots[k], agent, c)
    ensures Cheap(moves, c)
    ensures var f' := Replay(f, moves);
            && f'.slots == f.slots[k := None] && MayPropose(f'.books, agent) && f'.books.next >= f.books.next
            && f'.books.counter == f.books.counter && f'.books.reservations == f.books.reservations
  {
    var reservation := f.slots[k].value.stage.reservation;
    assert f.slots[k] == Some(Flight(Proposal(agent, c), Authorized(reservation)));
    hide Play, Advance, Replay, MayPropose, Opened, Proposal, Charge;
    ProposalCloses(f.books, agent, c, reservation, SettleFails);
    OneSlotPlays(f, k, Closing(agent, c, SettleFails));
    moves := TurnsOf(k, Closing(agent, c, SettleFails));
    TurnsAreCheap(k, Closing(agent, c, SettleFails), agent, c);
  }

  /** One run whose settlement fails. */
  lemma LeakOne(f: Floor, agent: Id, c: nat) returns (moves: seq<Move>)
    requires |f.slots| == 1 && AtRest(f) && MayPropose(f.books, agent) && c > 0 && RowsKnown(f.books)
    requires f.books.counter.Some? && Engine.Admits(f.books.counter.value, c)
    ensures Cheap(moves, c)
    ensures var f' := Replay(f, moves);
            && |f'.slots| == 1 && AtRest(f') && MayPropose(f'.books, agent) && RowsKnown(f'.books)
            && f'.books.counter == f.books.counter && OpenReserved(f'.books) == OpenReserved(f.books) + c
  {
    var opening := FillSlot(f, 0, agent, c);
    OpenedIsOpened(f.books, agent, c);
    hide Replay, MayPropose, OpenReserved, Proposal, OpenedSlot, Cheap, Opened;
    var closing := LeakSlot(Replay(f, opening), 0, agent, c);
    ReplayJoins(f, opening, closing);
    CheapJoins(opening, closing, c);
    RowAdded(f.books, Replay(Replay(f, opening), closing).books, c);
    moves := opening + closing;
  }

  /** Cheap moves of a single run at a time that leave the counter alone and this much more reserved. */
  ghost predicate Leaves(f: Floor, moves: seq<Move>, c: nat, more: int) {
    && Cheap(moves, c) && AtRest(Replay(f, moves)) && Replay(f, moves).books.counter == f.books.counter
    && OpenReserved(Replay(f, moves).books) == OpenReserved(f.books) + more
  }

  lemma LeakMany(f: Floor, agent: Id, c: nat, n: nat) returns (moves: seq<Move>)
    requires |f.slots| == 1 && AtRest(f) && MayPropose(f.books, agent) && c > 0 && RowsKnown(f.books)
    requires f.books.counter.Some? && Engine.Admits(f.books.counter.value, c)
    ensures Leaves(f, moves, c, n * c)
    decreases n
  {
    if n == 0 {
      moves := [];
    } else {
      var first := LeakOne(f, agent, c);
      hide MayPropose, Replay, Cheap, OpenReserved, AtRest, RowsKnown;
      var rest := LeakMany(Replay(f, first), agent, c, n - 1);
      ReplayJoins(f, first, rest);
      CheapJoins(first, rest, c);
      Distributes(n, c);
      moves := first + rest;
    }
  }

  /** The table has no ceiling: one run at a time, settlements that fail leave n rows of c open for every n, with nothing
    * spent and no run in flight. */
  lemma ReservationsPileUp(f: Floor, agent: Id, c: nat, n: nat)
    requires |f.slots| == 1 && AtRest(f) && MayPropose(f.books, agent) && c > 0 && RowsKnown(f.books)
    requires f.books.counter.Some? && Engine.Admits(f.books.counter.value, c)
    ensures exists moves, more :: more == n * c && Leaves(f, moves, c, more)
  {
    var moves := LeakMany(f, agent, c, n);
    hide Leaves;
    assert Leaves(f, moves, c, n * c);
  }

  /** The rest of a proposal up to its settlement. */
  function Unsettled(): seq<Action> {
    [Work, Read, Claim(false), Log(false), Act(false), Finish(false)]
  }

  lemma FailingSettlementWritesNothing(b: Books, slot: Slot)
    ensures Advance(b, slot, Settle(true)).0 == b && (slot.None? ==> Advance(b, slot, Settle(false)).0 == b)
  {
    hide Estimate;
  }

  /** The last action of a proposal's rest is its settlement. */
  lemma ClosingSettles(b: Books, agent: Id, c: nat, slot: Slot, fails: bool)
    ensures var (unsettled, slot') := Play(b, slot, Unsettled());
            Play(b, slot, Closing(agent, c, if fails then SettleFails else NoFault)) == Advance(unsettled, slot', Settle(fails))
  {
    assert Closing(agent, c, if fails then SettleFails else NoFault) == Unsettled() + [Settle(fails)];
    hide Play, Advance, Unsettled, Closing;
    PlayJoins(b, slot, Unsettled(), [Settle(fails)]);
    PlayOne(Play(b, slot, Unsettled()).0, Play(b, slot, Unsettled()).1, Settle(fails));
  }

  /** A settlement that charges the cost of a proposal and loses the update of its reservation. */
  lemma ProposalLosesUpdate(b: Books, agent: Id, c: nat, reservation: Option<Id>)
    requires MayPropose(b, agent) && c > 0
    ensures var (unsettled, slot) := Play(b, Some(Flight(Proposal(agent, c), Authorized(reservation))), Unsettled());
            var (b', slot') := Advanced(unsettled, slot, Settle(false), true);
            && slot' == None && b'.reservations == b.reservations && b'.counter == Charge(b.counter, c) && b'.next >= b.next
  {
    hide Play, Advance, MayPropose, Unsettled, Closing, Charge, Proposal;
    var entered := Some(Flight(Proposal(agent, c), Authorized(reservation)));
    var (unsettled, slot) := Play(b, entered, Unsettled());
    ProposalCloses(b, agent, c, reservation, NoFault);
    ProposalCloses(b, agent, c, reservation, SettleFails);
    ClosingSettles(b, agent, c, entered, false);
    ClosingSettles(b, agent, c, entered, true);
    FailingSettlementWritesNothing(unsettled, slot);
  }

  /** No settlement fails. */
  ghost predicate SettlesWell(moves: seq<Move>) {
    forall i :: 0 <= i < |moves| && moves[i].Turn? && moves[i].action.Settle? ==> !moves[i].action.fails
  }

  lemma OpeningAndRestSettleWell(k: nat, agent: Id, c: nat)
    ensures SettlesWell(TurnsOf(k, Opening(agent, c)) + (TurnsOf(k, Unsettled()) + [Turn(k, Settle(false), true)]))
  {
  }

  lemma ReplayPlaysAndLoses(f: Floor, k: nat, actions: seq<Action>, last: Action)
    requires k < |f.slots|
    ensures var (b, slot) := Play(f.books, f.slots[k], actions); var (b', slot') := Advanced(b, slot, last, true);
            Replay(f, TurnsOf(k, actions) + [Turn(k, last, true)]) == Floor(b', f.slots[k := slot'], f.totals)
  {
    hide Play, Advanced, Replay, TurnsOf;
    OneSlotPlays(f, k, actions);
    ReplayJoins(f, TurnsOf(k, actions), [Turn(k, last, true)]);
    ReplayOne(Replay(f, TurnsOf(k, actions)), Turn(k, last, true));
  }

  /** Ends the run in this slot with a settlement that loses the update. */
  lemma LoseSlot(f: Floor, k: nat, agent: Id, c: nat)
    requires k < |f.slots| && MayPropose(f.books, agent) && c > 0 && Opened(f.slots[k], agent, c)
    ensures var f' := Replay(f, TurnsOf(k, Unsettled()) + [Turn(k, Settle(false), true)]);
            && f'.slots == f.slots[k := None] && f'.books.next >= f.books.next
            && f'.books.counter == Charge(f.books.counter, c) && f'.books.reservations == f.books.reservations
  {
    var reservation := f.slots[k].value.stage.reservation;
    assert f.slots[k] == Some(Flight(Proposal(agent, c), Authorized(reservation)));
    hide Play, Advanced, Replay, MayPropose, Opened, Proposal, Charge, Unsettled, TurnsOf;
    ProposalLosesUpdate(f.books, agent, c, reservation);
    ReplayPlaysAndLoses(f, k, Unsettled(), Settle(false));
  }

  ghost predicate LosesUpdate(f: Floor, moves: seq<Move>, c: nat) {
    && SettlesWell(moves) && AtRest(Replay(f, moves)) && Replay(f, moves).books.counter == Charge(f.books.counter, c)
    && OpenReserved(Replay(f, moves).books) == OpenReserved(f.books) + c
  }

  /** Nor is a failing settlement needed: a charged run whose update of its reservation is lost leaves the row open. */
  lemma LostUpdateLeavesRow(f: Floor, agent: Id, c: nat)
    requires |f.slots| == 1 && AtRest(f) && MayPropose(f.books, agent) && c > 0 && RowsKnown(f.books)
    requires f.books.counter.Some? && Engine.Admits(f.books.counter.value, c)
    ensures exists moves :: LosesUpdate(f, moves, c)
  {
    var opening, closing := TurnsOf(0, Opening(agent, c)), TurnsOf(0, Unsettled()) + [Turn(0, Settle(false), true)];
    ProposalOpens(f.books, agent, c);
    OneSlotPlays(f, 0, Opening(agent, c));
    OpenedIsOpened(f.books, agent, c);
    OpeningAndRestSettleWell(0, agent, c);
    hide Play, Replay, MayPropose, OpenReserved, Proposal, OpenedSlot, Charge, Unsettled, Opening, SettlesWell, Opened;
    LoseSlot(Replay(f, opening), 0, agent, c);
    ReplayJoins(f, opening, closing);
    RowAdded(f.books, Replay(f, opening + closing).books, c);
    assert LosesUpdate(f, opening + closing, c);
  }

  // ---- A late counter ---------------------------------------------------------------------------------

  ghost predicate EnterCheaply(moves: seq<Move>, c: nat) {
    forall i :: 0 <= i < |moves| ==> EnterAtMost(moves[i], c)
  }

  /** These moves end with no run in flight and this counter. */
  ghost predicate EndsWith(f: Floor, moves: seq<Move>, c: nat, counter: Counter) {
    EnterCheaply(moves, c) && AtRest(Replay(f, moves)) && Replay(f, moves).books.counter == Some(counter)
  }

  lemma BudgetBetween(first: seq<Move>, limit: int, last: seq<Move>, c: nat)
    requires Cheap(first, c) && Cheap(last, c)
    ensures EnterCheaply(first + [SetBudget(limit)] + last, c)
  {
    hide EnterAtMost;
    var moves := first + [SetBudget(limit)] + last;
    forall i | 0 <= i < |moves| ensures EnterAtMost(moves[i], c) {
      if i == |first| {
        BudgetEntersNothing(limit, c);
      }
    }
  }

  lemma BudgetEntersNothing(limit: int, c: nat)
    ensures EnterAtMost(SetBudget(limit), c)
  {
  }

  /** A run that checked before there was a counter is charged to one created while it was in flight: for every limit below
    * its estimate, one run at a time ends above the limit. */
  lemma LateCounterIsExceeded(f: Floor, agent: Id, c: nat, limit: int)
    requires |f.slots| == 1 && AtRest(f) && MayPropose(f.books, agent) && f.books.counter.None? && c > limit > 0
    ensures exists moves :: EndsWith(f, moves, c, Counter(limit, c))
  {
    var opening := FillSlot(f, 0, agent, c);
    OpenedHasNoCounter(f.books, c);
    OpenedIsOpened(f.books, agent, c);
    hide Replay, MayPropose, Step, Cheap, EnterCheaply, OpenedBooks, OpenedSlot, Opened, Proposal, AtRest;
    var closing := CreateAndDrain(Replay(f, opening), agent, c, limit);
    ReplayAround(f, opening, SetBudget(limit), closing);
    BudgetBetween(opening, limit, closing, c);
    assert EndsWith(f, opening + [SetBudget(limit)] + closing, c, Counter(limit, c));
  }

  lemma CreateAndDrain(f: Floor, agent: Id, c: nat, limit: int) returns (moves: seq<Move>)
    requires |f.slots| == 1 && MayPropose(f.books, agent) && f.books.counter.None? && c > 0 && Opened(f.slots[0], agent, c)
    ensures Cheap(moves, c)
    ensures var f' := Replay(Step(f, SetBudget(limit)), moves); AtRest(f') && f'.books.counter == Some(Counter(limit, c))
  {
    CreatedKeeps(f, agent, limit);
    hide Replay, MayPropose, Step, Cheap, Opened, Proposal;
    moves := DrainSlot(Step(f, SetBudget(limit)), 0, agent, c);
  }

  lemma OpenedHasNoCounter(b: Books, c: nat)
    requires b.counter.None?
    ensures OpenedBooks(b, c).counter.None?
  {
  }

  lemma OpenedIsOpened(b: Books, agent: Id, c: nat)
    ensures Opened(OpenedSlot(b, agent, c), agent, c)
  {
  }

  lemma CreatedKeeps(f: Floor, agent: Id, limit: int)
    requires MayPropose(f.books, agent) && f.books.counter.None?
    ensures var f' := Step(f, SetBudget(limit));
            MayPropose(f'.books, agent) && f'.books.counter == Some(Counter(limit, 0)) && f'.slots == f.slots
  {
  }

  // ---- Two approvals at once --------------------------------------------------------------------------

  predicate MayApprove(b: Books, owner: Id) {
    b.state == ACTIVE && IsActive(b, owner) && IsOwner(b, owner) && b.hourlyLimit <= 0
  }

  /** An approval free of charge. */
  function Approval(owner: Id, draft: Id, units: nat): Call {
    CallApprove(owner, ByDraft(draft), units, 1.0, Some(0.0))
  }

  lemma ApprovalIsFree(owner: Id, draft: Id, units: nat)
    ensures Estimate(Approval(owner, draft, units)) == 0
  {
  }

  function Claimant(owner: Id, draft: Id, units: nat, proposer: Id): Slot {
    Some(Flight(Approval(owner, draft, units), Claiming(None, draft, proposer)))
  }

  function Claims(owner: Id, draft: Id, units: nat): seq<Action> {
    [Enter(Approval(owner, draft, units), 0, false)] + ([Authorize] + ([Work] + [Read]))
  }

  /** Up to having read the draft, an approval writes nothing. */
  lemma ApprovalClaims(b: Books, owner: Id, draft: Id, units: nat)
    requires MayApprove(b, owner) && draft in b.pending && units > 0
    ensures Play(b, None, Claims(owner, draft, units)) == (b, Claimant(owner, draft, units, b.pending[draft]))
  {
    var call := Approval(owner, draft, units);
    ApprovalIsFree(owner, draft, units);
    var entered, authorized := Some(Flight(call, Entered)), Some(Flight(call, Authorized(None)));
    var resolved := Some(Flight(call, Resolved(None, draft)));
    PlayJoins(b, None, [Enter(call, 0, false)], [Authorize] + ([Work] + [Read]));
    PlayOne(b, None, Enter(call, 0, false));
    PlayJoins(b, entered, [Authorize], [Work] + [Read]);
    PlayOne(b, entered, Authorize);
    PlayJoins(b, authorized, [Work], [Read]);
    PlayOne(b, authorized, Work);
    PlayOne(b, resolved, Read);
    hide Play, Estimate;
  }

  function SumsActions(): seq<Action> {
    [Claim(false)] + ([Log(false)] + [Act(false)])
  }

  function SummedBooks(b: Books, owner: Id, draft: Id, units: nat, proposer: Id): Books {
    AppendLog(b.(pending := b.pending - {draft}), Approval(owner, draft, units), Success, AwardFor(b, proposer, units, 1.0), 0)
  }

  function SummedSlot(b: Books, owner: Id, draft: Id, units: nat, proposer: Id): Slot {
    Some(Flight(Approval(owner, draft, units),
                Summed(None, draft, proposer, AwardFor(b, proposer, units, 1.0), Balance(b.ledger, proposer), b.next)))
  }

  lemma ApprovalSums(b: Books, owner: Id, draft: Id, units: nat, proposer: Id)
    ensures Play(b, Claimant(owner, draft, units, proposer), SumsActions())
         == (SummedBooks(b, owner, draft, units, proposer), SummedSlot(b, owner, draft, units, proposer))
  {
    var call := Approval(owner, draft, units);
    ApprovalIsFree(owner, draft, units);
    var work := Claimed(draft, proposer, units, 1.0);
    var deleted := b.(pending := b.pending - {draft});
    AwardIgnoresDrafts(b, deleted, proposer, units);
    var effects := Effects(AwardFor(b, proposer, units, 1.0), 0, "USD");
    assert FinalEffects(deleted, call, work) == effects by { hide AwardFor; }
    hide FinalEffects, AwardFor, Balance;
    var worked, logged := Some(Flight(call, Worked(None, work, effects))), Some(Flight(call, Logged(None, work, effects, b.next)));
    PlayJoins(b, Claimant(owner, draft, units, proposer), [Claim(false)], [Log(false)] + [Act(false)]);
    PlayOne(b, Claimant(owner, draft, units, proposer), Claim(false));
    PlayJoins(deleted, worked, [Log(false)], [Act(false)]);
    PlayOne(deleted, worked, Log(false));
    PlayOne(SummedBooks(b, owner, draft, units, proposer), logged, Act(false));
    hide Play, Estimate;
  }

  lemma AwardIgnoresDrafts(b: Books, b': Books, proposer: Id, units: nat)
    requires b'.rule == b.rule && b'.members == b.members && b'.tiers == b.tiers
    ensures AwardFor(b', proposer, units, 1.0) == AwardFor(b, proposer, units, 1.0)
  {
  }

  function PaysActions(): seq<Action> {
    [Finish(false)] + [Settle(false)]
  }

  lemma ApprovalPays(b: Books, owner: Id, draft: Id, units: nat, s: Stage)
    requires s.Summed? && s.reservation == None
    ensures Play(b, Some(Flight(Approval(owner, draft, units), s)), PaysActions()) == (b.(ledger := b.ledger + [AwardRow(s)]), None)
  {
    var call := Approval(owner, draft, units);
    var slot := Some(Flight(call, s));
    ApprovalIsFree(owner, draft, units);
    var paid := b.(ledger := b.ledger + [AwardRow(s)]);
    PlayJoins(b, slot, [Finish(false)], [Settle(false)]);
    PlayOne(b, slot, Finish(false));
    PlayOne(paid, Some(Flight(call, Applied(None, s.logId))), Settle(false));
    hide Play, Estimate;
  }

  /** Both runs read, then both delete, log and sum, then both insert. */
  function BothClaim(owner: Id, d0: Id, d1: Id, units: nat): seq<Move> {
    TurnsOf(0, Claims(owner, d0, units)) + TurnsOf(1, Claims(owner, d1, units))
  }

  lemma BothClaimed(f: Floor, owner: Id, d0: Id, d1: Id, units: nat)
    requires |f.slots| == 2 && AtRest(f) && MayApprove(f.books, owner) && d0 in f.books.pending && d1 in f.books.pending && units > 0
    ensures Replay(f, BothClaim(owner, d0, d1, units))
         == Floor(f.books, [Claimant(owner, d0, units, f.books.pending[d0]), Claimant(owner, d1, units, f.books.pending[d1])], f.totals)
  {
    hide Play, Replay, Claims, MayApprove, Claimant;
    ApprovalClaims(f.books, owner, d0, units);
    ApprovalClaims(f.books, owner, d1, units);
    OneSlotPlays(f, 0, Claims(owner, d0, units));
    var f1 := Replay(f, TurnsOf(0, Claims(owner, d0, units)));
    OneSlotPlays(f1, 1, Claims(owner, d1, units));
    ReplayJoins(f, TurnsOf(0, Claims(owner, d0, units)), TurnsOf(1, Claims(owner, d1, units)));
  }

  lemma BothSummed(f: Floor, owner: Id, d0: Id, d1: Id, units: nat, p0: Id, p1: Id)
    requires f.slots == [Claimant(owner, d0, units, p0), Claimant(owner, d1, units, p1)]
    ensures var b1 := SummedBooks(f.books, owner, d0, units, p0);
            Replay(f, TurnsOf(0, SumsActions()) + TurnsOf(1, SumsActions()))
            == Floor(SummedBooks(b1, owner, d1, units, p1),
                     [SummedSlot(f.books, owner, d0, units, p0), SummedSlot(b1, owner, d1, units, p1)], f.totals)
  {
    hide Play, Replay, SumsActions, SummedBooks, SummedSlot, Claimant;
    var b1 := SummedBooks(f.books, owner, d0, units, p0);
    ApprovalSums(f.books, owner, d0, units, p0);
    ApprovalSums(b1, owner, d1, units, p1);
    OneSlotPlays(f, 0, SumsActions());
    var f1 := Replay(f, TurnsOf(0, SumsActions()));
    OneSlotPlays(f1, 1, SumsActions());
    ReplayJoins(f, TurnsOf(0, SumsActions()), TurnsOf(1, SumsActions()));
  }

  lemma BothPaid(f: Floor, owner: Id, d0: Id, d1: Id, units: nat, s0: Stage, s1: Stage)
    requires s0.Summed? && s1.Summed? && s0.reservation == s1.reservation == None
    requires f.slots == [Some(Flight(Approval(owner, d0, units), s0)), Some(Flight(Approval(owner, d1, units), s1))]
    ensures var f' := Replay(f, TurnsOf(0, PaysActions()) + TurnsOf(1, PaysActions()));
            f'.books.ledger == f.books.ledger + [AwardRow(s0), AwardRow(s1)] && AtRest(f')
  {
    hide Play, Replay, PaysActions;
    var b1 := f.books.(ledger := f.books.ledger + [AwardRow(s0)]);
    ApprovalPays(f.books, owner, d0, units, s0);
    ApprovalPays(b1, owner, d1, units, s1);
    OneSlotPlays(f, 0, PaysActions());
    var f1 := Replay(f, TurnsOf(0, PaysActions()));
    OneSlotPlays(f1, 1, PaysActions());
    ReplayJoins(f, TurnsOf(0, PaysActions()), TurnsOf(1, PaysActions()));
    assert f.books.ledger + [AwardRow(s0)] + [AwardRow(s1)] == f.books.ledger + [AwardRow(s0), AwardRow(s1)];
  }

  /** These moves end at rest with these two rows more. */
  ghost predicate Adds(f: Floor, moves: seq<Move>, r0: LedgerRow, r1: LedgerRow) {
    AtRest(Replay(f, moves)) && Replay(f, moves).books.ledger == f.books.ledger + [r0, r1]
  }

  function OverlappingRow(b: Books, draft: Id, proposer: Id, units: nat, logId: Id): LedgerRow {
    var tokens := AwardFor(b, proposer, units, 1.0);
    LedgerRow(proposer, tokens, Balance(b.ledger, proposer) + tokens, Passage, draft, logId, Confirmed)
  }

  lemma BothSumUp(f: Floor, owner: Id, d0: Id, d1: Id, units: nat) returns (moves: seq<Move>)
    requires |f.slots| == 2 && AtRest(f) && MayApprove(f.books, owner) && d0 in f.books.pending && d1 in f.books.pending && units > 0
    ensures var b, p0, p1 := f.books, f.books.pending[d0], f.books.pending[d1];
            var b1 := SummedBooks(b, owner, d0, units, p0);
            Replay(f, moves) == Floor(SummedBooks(b1, owner, d1, units, p1),
                                      [SummedSlot(b, owner, d0, units, p0), SummedSlot(b1, owner, d1, units, p1)], f.totals)
  {
    hide Replay, TurnsOf, SummedBooks, SummedSlot, Claimant, AtRest, MayApprove, Claims;
    BothClaimed(f, owner, d0, d1, units);
    var claims := BothClaim(owner, d0, d1, units);
    BothSummed(Replay(f, claims), owner, d0, d1, units, f.books.pending[d0], f.books.pending[d1]);
    ReplayJoins(f, claims, TurnsOf(0, SumsActions()) + TurnsOf(1, SumsActions()));
    moves := claims + (TurnsOf(0, SumsActions()) + TurnsOf(1, SumsActions()));
  }

  lemma SummedRows(b: Books, owner: Id, d0: Id, d1: Id, units: nat, p0: Id, p1: Id)
    ensures var b1 := SummedBooks(b, owner, d0, units, p0);
            var s0, s1 := SummedSlot(b, owner, d0, units, p0).value.stage, SummedSlot(b1, owner, d1, units, p1).value.stage;
            && SummedBooks(b1, owner, d1, units, p1).ledger == b.ledger
            && s0.Summed? && s1.Summed? && s0.reservation == s1.reservation == None
            && SummedSlot(b, owner, d0, units, p0) == Some(Flight(Approval(owner, d0, units), s0))
            && SummedSlot(b1, owner, d1, units, p1) == Some(Flight(Approval(owner, d1, units), s1))
            && AwardRow(s0) == OverlappingRow(b, d0, p0, units, b.next) && AwardRow(s1) == OverlappingRow(b, d1, p1, units, b.next + 1)
  {
    AwardIgnoresDrafts(b, SummedBooks(b, owner, d0, units, p0), p1, units);
    hide AwardFor, Balance;
  }

  /** Two approvals that both read before either deletes, and both sum before either inserts, add two rows, each over the
    * balance before both. */
  lemma OverlappingApprovals(f: Floor, owner: Id, d0: Id, d1: Id, units: nat) returns (moves: seq<Move>)
    requires |f.slots| == 2 && AtRest(f) && MayApprove(f.books, owner) && d0 in f.books.pending && d1 in f.books.pending && units > 0
    ensures var b := f.books;
            Adds(f, moves, OverlappingRow(b, d0, b.pending[d0], units, b.next), OverlappingRow(b, d1, b.pending[d1], units, b.next + 1))
  {
    var b, p0, p1 := f.books, f.books.pending[d0], f.books.pending[d1];
    var sums := BothSumUp(f, owner, d0, d1, units);
    var f2 := Replay(f, sums);
    hide Replay, TurnsOf, SummedBooks, SummedSlot, Approval, AtRest, MayApprove, AwardRow, AwardFor, Balance, OverlappingRow, PaysActions;
    SummedRows(b, owner, d0, d1, units, p0, p1);
    BothPaid(f2, owner, d0, d1, units, f2.slots[0].value.stage, f2.slots[1].value.stage);
    var pays := TurnsOf(0, PaysActions()) + TurnsOf(1, PaysActions());
    ReplayJoins(f, sums, pays);
    moves := sums + pays;
  }

  /** These moves end at rest with this draft awarded twice, under two log ids. */
  ghost predicate AwardsTwice(f: Floor, moves: seq<Move>, draft: Id) {
    exists r0, r1 :: Adds(f, moves, r0, r1) && r0.source == r1.source == Passage && r0.ref == r1.ref == draft && r0.logId != r1.logId
  }

  /** Every pending draft can be awarded twice by two approvals that both read it before either deletes it. */
  lemma OverlappingClaimsAwardTwice(f: Floor, owner: Id, draft: Id)
    requires |f.slots| == 2 && AtRest(f) && MayApprove(f.books, owner) && draft in f.books.pending
    ensures exists moves :: AwardsTwice(f, moves, draft)
  {
    var b := f.books;
    var moves := OverlappingApprovals(f, owner, draft, draft, 1);
    var r0, r1 := OverlappingRow(b, draft, b.pending[draft], 1, b.next), OverlappingRow(b, draft, b.pending[draft], 1, b.next + 1);
    hide Adds, AwardFor, Balance;
    assert AwardsTwice(f, moves, draft);
  }

  /** These moves end at rest with the agent's latest row short of its balance by this much. */
  ghost predicate Misstates(f: Floor, moves: seq<Move>, agent: Id, missed: int) {
    && AtRest(Replay(f, moves))
    && var ledger := Replay(f, moves).books.ledger;
       ledger != [] && ledger[|ledger| - 1].agent == agent && Balance(ledger, agent) == ledger[|ledger| - 1].balanceAfter + missed
  }

  lemma TwoRowsBalance(ledger: seq<LedgerRow>, r0: LedgerRow, r1: LedgerRow, agent: Id)
    requires r0.agent == r1.agent == agent && r0.status == r1.status == Confirmed
    ensures Balance(ledger + [r0, r1], agent) == Balance(ledger, agent) + r0.delta + r1.delta
  {
    assert ledger + [r0, r1] == ledger + [r0] + [r1];
    SumAppend(ledger + [r0], r1, DeltaOfAgent(agent));
    SumAppend(ledger, r0, DeltaOfAgent(agent));
  }

  /** Two awards of one agent that both sum before either inserts leave its latest balance_after short by the first award. */
  lemma OverlappingSumsMisstate(f: Floor, owner: Id, d0: Id, d1: Id, units: nat)
    requires |f.slots| == 2 && AtRest(f) && MayApprove(f.books, owner) && d0 in f.books.pending && d1 in f.books.pending && units > 0
    requires f.books.pending[d0] == f.books.pending[d1]
    ensures var agent := f.books.pending[d0];
            exists moves :: Misstates(f, moves, agent, AwardFor(f.books, agent, units, 1.0))
  {
    var b, agent := f.books, f.books.pending[d0];
    var moves := OverlappingApprovals(f, owner, d0, d1, units);
    var r0, r1 := OverlappingRow(b, d0, agent, units, b.next), OverlappingRow(b, d1, agent, units, b.next + 1);
    TwoRowsBalance(b.ledger, r0, r1, agent);
    hide AwardFor, Balance, Replay;
    assert Misstates(f, moves, agent, AwardFor(b, agent, units, 1.0));
  }
}
