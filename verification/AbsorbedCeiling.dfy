/** The ceiling when runs interleave with rebuilds: a written total raises the counter by what was due in flight and astray,
  * less what the log grew since the total was read. */
module AbsorbedCeiling {
  import opened Common
  import opened Books
  import opened Sums
  import opened Engine
  import opened Interleaving
  import opened Reservations
  import Accounting
  import Reconciliation

  // ---- Costs are not negative -----------------------------------------------------------------------------

  /** A run of a repository tool. */
  predicate IsPlain(slot: Slot) {
    slot.Some? ==> LeavesCostToEngine(slot.value.call)
  }

  predicate EntersPlain(m: Move) {
    m.Turn? && m.action.Enter? ==> LeavesCostToEngine(m.action.call)
  }

  lemma PlainCostsNothingNegative(call: Call)
    requires LeavesCostToEngine(call)
    ensures Accounting.LoggedCost(call) >= 0
  {
  }

  lemma AppendedCosts(b: Books, call: Call, result: LogResult, tokens: int, cost: int)
    requires Accounting.CostsNonNegative(b.logs) && (result == Success ==> cost >= 0)
    ensures Accounting.CostsNonNegative(AppendLog(b, call, result, tokens, cost).logs)
  {
  }

  lemma RefusedCosts(b: Books, call: Call, reservation: Option<Id>)
    requires Accounting.CostsNonNegative(b.logs)
    ensures Accounting.CostsNonNegative(Refuse(b, call, reservation).0.logs) && Accounting.CostsNonNegative(Abort(b, reservation).0.logs)
    ensures Accounting.CostsNonNegative(LogRefusal(b, call).logs)
  {
    hide SetReservation, AppendLog;
    ReservationWrites(b, reservation, Released);
    AppendedCosts(b, call, Refusal, 0, 0);
    AppendedCosts(SetReservation(b, reservation, Released), call, Refusal, 0, 0);
  }

  lemma EntryCosts(b: Books, call: Call, now: int, prune: bool)
    requires Accounting.CostsNonNegative(b.logs)
    ensures Accounting.CostsNonNegative(Entering(b, call, now, prune).0.logs) && Accounting.CostsNonNegative(Authorizing(b, call).0.logs)
  {
    hide Gate, Permitted, IsActive, Estimate, LogRefusal, Accounting.CostsNonNegative;
    GateWrites(b, call, now, prune);
    RefusedCosts(b, call, None);
    RefusedCosts(Gate(b, call, now, prune).0, call, None);
  }

  lemma PricingCosts(b: Books, call: Call, work: Work, reservation: Option<Id>)
    requires Accounting.CostsNonNegative(b.logs)
    ensures Accounting.CostsNonNegative(Pricing(b, call, work, reservation).0.logs)
  {
    hide FinalEffects, Refuse, Accounting.CostsNonNegative;
    RefusedCosts(b, call, reservation);
  }

  lemma WorkingCosts(b: Books, call: Call, reservation: Option<Id>)
    requires Accounting.CostsNonNegative(b.logs)
    ensures Accounting.CostsNonNegative(Working(b, call, reservation).0.logs)
  {
    hide Execute, Pricing, Refuse, ResolveDraft, Accounting.CostsNonNegative;
    RefusedCosts(b, call, reservation);
    if Execute(b, call).Some? {
      Reconciliation.ExecuteKeepsMoney(b, call);
      PricingCosts(Execute(b, call).value.0, call, Execute(b, call).value.1, reservation);
    }
  }

  lemma MiddleCosts(b: Books, call: Call, s: Stage, fails: bool)
    requires Accounting.CostsNonNegative(b.logs) && (s.Worked? ==> s.effects.cost >= 0)
    ensures s.Resolved? ==> Accounting.CostsNonNegative(Reading(b, call, s).0.logs)
    ensures s.Claiming? ==> Accounting.CostsNonNegative(Deleting(b, call, s, fails).0.logs)
    ensures s.Worked? ==> Accounting.CostsNonNegative(Logging(b, call, s, fails).0.logs)
    ensures s.Logged? ==> Accounting.CostsNonNegative(Acting(b, call, s, fails).0.logs)
  {
    hide Pricing, Refuse, Abort, AppendLog, Balance, Reverse, Resolvable, Accounting.CostsNonNegative;
    if !s.Entered? {
      RefusedCosts(b, call, s.reservation);
    }
    if s.Claiming? {
      PricingCosts(b.(pending := b.pending - {s.draft}), call, ClaimedBy(call, s.draft, s.proposer), s.reservation);
    }
    if s.Worked? {
      AppendedCosts(b, call, Success, s.effects.tokens, s.effects.cost);
    }
  }

  lemma FinishingCosts(b: Books, call: Call, s: Stage, fails: bool)
    requires s.Summed? || s.Checked? || s.Flipped?
    requires Accounting.CostsNonNegative(b.logs)
    ensures Accounting.CostsNonNegative(Finishing(b, call, s, fails).0.logs)
  {
    hide Abort, Resolve, Refund, Accounting.CostsNonNegative;
    RefusedCosts(b, call, s.reservation);
    if s.Checked? && Resolve(b, s.work, s.logId).Some? {
      Reconciliation.ResolvingAddsOwnRow(b, s.work, s.logId);
    }
  }

  lemma AdvanceCosts(b: Books, slot: Slot, action: Action)
    requires Accounting.CostsNonNegative(b.logs) && Reconciliation.Placed(b, slot) && IsPlain(slot)
    ensures Accounting.CostsNonNegative(Advance(b, slot, action).0.logs)
  {
    if slot.Some? {
      PlainCostsNothingNegative(slot.value.call);
    }
    hide Entering, Authorizing, Working, Reading, Deleting, Logging, Acting, Finishing, Settling, Accounting.CostsNonNegative,
         Accounting.LoggedCost;
    match slot
    case None =>
      if action.Enter? { EntryCosts(b, action.call, action.now, action.prune); }
    case Some(Flight(call, s)) =>
      EntryCosts(b, call, 0, false);
      if s.Authorized? { WorkingCosts(b, call, s.reservation); }
      if action.Read? { MiddleCosts(b, call, s, false); }
      if action.Claim? || action.Log? || action.Act? { MiddleCosts(b, call, s, action.fails); }
      if (s.Summed? || s.Checked? || s.Flipped?) && action.Finish? { FinishingCosts(b, call, s, action.fails); }
      if s.Applied? && action.Settle? { SettlingWrites(b, call, s, action.fails); }
  }

  /** The log's costs and the totals read from it are not negative, and all runs are of repository tools. */
  ghost predicate Plain(f: Floor) {
    && Accounting.CostsNonNegative(f.books.logs) && (forall i :: 0 <= i < |f.totals| ==> f.totals[i] >= 0)
    && forall i :: 0 <= i < |f.slots| ==> IsPlain(f.slots[i])
  }

  lemma StepStaysPlain(f: Floor, m: Move)
    requires Plain(f) && Reconciliation.Orderly(f) && EntersPlain(m)
    ensures Plain(Step(f, m))
  {
    var f' := Step(f, m);
    if m.Turn? && m.slot < |f.slots| {
      var slot := f.slots[m.slot];
      assert Reconciliation.Placed(f.books, slot) && IsPlain(slot);
      AdvanceCosts(f.books, slot, m.action);
      AdvanceFollows(f.books, slot, m.action);
      AdvancedIsAdvance(f.books, slot, m.action, m.lost);
      hide Advance, Advanced, Accounting.CostsNonNegative, LeavesCostToEngine, Reconciliation.Placed;
      forall i | 0 <= i < |f'.slots| ensures IsPlain(f'.slots[i]) {
        assert i != m.slot ==> f'.slots[i] == f.slots[i];
      }
    } else {
      RebuiltIsNotNegative(f.books.logs, f.books.ledger);
      OthersTotals(f, m);
      hide Step, RebuiltSpend;
      BesideTheRuns(f, m);
    }
  }

  lemma OthersTotals(f: Floor, m: Move)
    requires !m.Turn? || m.slot >= |f.slots|
    requires (forall i :: 0 <= i < |f.totals| ==> f.totals[i] >= 0) && RebuiltSpend(f.books.logs, f.books.ledger) >= 0
    ensures forall i :: 0 <= i < |Step(f, m).totals| ==> Step(f, m).totals[i] >= 0
  {
    hide RebuiltSpend, Advanced;
  }

  lemma RebuiltIsNotNegative(logs: seq<LogRow>, ledger: seq<LedgerRow>)
    requires Accounting.CostsNonNegative(logs)
    ensures RebuiltSpend(logs, ledger) >= 0
  {
    TotalCoversEach(logs, CostOf, ReversedIds(ledger));
  }

  // ---- The raised ceiling --------------------------------------------------------------------------------

  /** What a written total adds to the counter, if it adds anything. */
  function AbsorbedBy(f: Floor, m: Move, astray: int): int {
    if m.WriteTotal? && m.index < |f.totals| && f.books.counter.Some?
    then Positive(InFlight(f.slots, Reconciliation.Due) + astray - (RebuiltSpend(f.books.logs, f.books.ledger) - f.totals[m.index]))
    else 0
  }

  function Absorbed(f: Floor, moves: seq<Move>): int {
    if moves == [] then 0
    else
      Absorbed(f, moves[..|moves| - 1])
      + AbsorbedBy(Replay(f, moves[..|moves| - 1]), moves[|moves| - 1], Reconciliation.Strays(f, moves[..|moves| - 1]))
  }

  function Raised(counter: Counter, more: int): Counter {
    if counter.limit > 0 then counter.(limit := counter.limit + more) else counter
  }

  /** Under the ceiling raised by this much. */
  predicate UnderRaised(f: Floor, c: nat, more: int) {
    && |f.slots| > 0 && EachAtMost(f.slots, c) && more >= 0
    && (f.books.counter.Some? ==> Fits(f.slots, Raised(f.books.counter.value, more), c))
  }

  lemma ChargesRaised(counter: Counter, held: int, counter': Option<Counter>, held': int, more: int)
    requires Charges(Some(counter), held, counter', held') && counter.spent >= 0 && more >= 0
    ensures counter'.Some? && Charges(Some(Raised(counter, more)), held, Some(Raised(counter'.value, more)), held')
  {
  }

  lemma TurnStaysUnderRaised(f: Floor, k: nat, action: Action, lost: bool, c: nat, more: int)
    requires UnderRaised(f, c, more) && EnterAtMost(Turn(k, action, lost), c)
    ensures UnderRaised(Step(f, Turn(k, action, lost)), c, more)
  {
    if k < |f.slots| {
      hide Advance, Advanced, Estimate, Fits, Charges;
      AdvancedIsAdvance(f.books, f.slots[k], action, lost);
      AdvanceCharges(f.books, f.slots[k], action);
      AdvanceFollows(f.books, f.slots[k], action);
      var f' := Step(f, Turn(k, action, lost));
      forall i | 0 <= i < |f.slots| && f'.slots[i].Some? ensures Estimate(f'.slots[i].value.call) <= c {
        assert i != k ==> f'.slots[i] == f.slots[i];
      }
      if f.books.counter.None? {
        NoCounterStays(f.books, f.slots[k], action);
      } else {
        FitsIsNotNegative(f.slots, f.books.counter.value, c, more);
        ChargesRaised(f.books.counter.value, Held(f.slots[k]), f'.books.counter, Held(f'.slots[k]), more);
        TurnFits(f.slots, k, f'.slots[k], Raised(f.books.counter.value, more), Raised(f'.books.counter.value, more), c);
      }
    }
  }

  lemma FitsIsNotNegative(slots: seq<Slot>, counter: Counter, c: nat, more: int)
    requires Fits(slots, Raised(counter, more), c)
    ensures counter.spent >= 0
  {
  }

  /** A written total raises the counter by exactly what it absorbs, or lowers it. */
  lemma WriteAbsorbs(f: Floor, i: nat, c: nat, more: int, astray: int)
    requires UnderRaised(f, c, more) && i < |f.totals| && f.totals[i] >= 0 && Reconciliation.Reconciled(f, astray)
    ensures UnderRaised(Step(f, WriteTotal(i)), c, more + AbsorbedBy(f, WriteTotal(i), astray))
  {
    hide RebuiltSpend, Held, Reconciliation.Due, EachAtMost, InFlight;
  }

  lemma OthersStayUnderRaised(f: Floor, m: Move, c: nat, more: int)
    requires UnderRaised(f, c, more) && (m.SetBudget? || m.ReadTotal?) && !Overshoots(f, m, c)
    ensures UnderRaised(Step(f, m), c, more)
  {
    hide RebuiltSpend, Held, EachAtMost, InFlight;
  }

  ghost predicate NoLateOvershoot(f: Floor, moves: seq<Move>, c: nat) {
    forall k :: 0 <= k < |moves| && moves[k].SetBudget? ==> !Overshoots(Replay(f, moves[..k]), moves[k], c)
  }

  lemma AbsorbsNothing(f: Floor, m: Move, astray: int)
    requires !m.WriteTotal? || m.index >= |f.totals|
    ensures AbsorbedBy(f, m, astray) == 0
  {
  }

  lemma StepStaysUnderRaised(f: Floor, m: Move, c: nat, more: int, astray: int)
    requires UnderRaised(f, c, more) && Plain(f) && Reconciliation.Reconciled(f, astray) && EnterAtMost(m, c)
    requires m.SetBudget? ==> !Overshoots(f, m, c)
    ensures UnderRaised(Step(f, m), c, more + AbsorbedBy(f, m, astray))
  {
    hide UnderRaised, Overshoots, AbsorbedBy, Reconciliation.Reconciled, EnterAtMost;
    if m.Turn? {
      TurnStaysUnderRaised(f, m.slot, m.action, m.lost, c, more);
      AbsorbsNothing(f, m, astray);
    } else if m.WriteTotal? && m.index < |f.totals| {
      WriteAbsorbs(f, m.index, c, more, astray);
    } else {
      AbsorbsNothing(f, m, astray);
      if m.WriteTotal? {
        assert Step(f, m) == f;
      } else {
        if m.ReadTotal? { ReadsNeverOvershoot(f, c); }
        OthersStayUnderRaised(f, m, c, more);
      }
    }
  }

  lemma ReadsNeverOvershoot(f: Floor, c: nat)
    ensures !Overshoots(f, ReadTotal, c)
  {
  }

  /** Main result: in every interleaving of the repository's tools with rebuilds at any time, spent plus what the runs in flight
    * may still charge stays within limit + (n - 1) * c plus what written totals have absorbed: what was due in flight and
    * astray as each was written, less what the log grew since it was read. */
  lemma {:induction false} StaysUnderAbsorbed(f: Floor, moves: seq<Move>, c: nat)
    requires UnderCeiling(f, c) && Plain(f) && Reconciliation.Orderly(f) && NoLateOvershoot(f, moves, c)
    requires forall i :: 0 <= i < |moves| ==> EnterAtMost(moves[i], c) && EntersPlain(moves[i])
    ensures Plain(Replay(f, moves)) && Reconciliation.Orderly(Replay(f, moves))
    ensures UnderRaised(Replay(f, moves), c, Absorbed(f, moves))
  {
    if moves == [] {
      StartsUnderRaised(f, c);
    } else {
      hide UnderRaised, UnderCeiling, Overshoots, Step, EnterAtMost, EntersPlain, Plain, AbsorbedBy, Reconciliation.Orderly,
           Reconciliation.Reconciled;
      var n := |moves| - 1;
      var before := Replay(f, moves[..n]);
      forall k | 0 <= k < n && moves[..n][k].SetBudget? ensures !Overshoots(Replay(f, moves[..n][..k]), moves[..n][k], c) {
        assert moves[..n][..k] == moves[..k];
      }
      StaysUnderAbsorbed(f, moves[..n], c);
      Reconciliation.GapIsDueAndStray(f, moves[..n]);
      Reconciliation.GapIsDueAndStray(f, moves);
      StepStaysPlain(before, moves[n]);
      StepStaysUnderRaised(before, moves[n], c, Absorbed(f, moves[..n]), Reconciliation.Strays(f, moves[..n]));
    }
  }

  lemma StartsUnderRaised(f: Floor, c: nat)
    requires UnderCeiling(f, c)
    ensures UnderRaised(f, c, 0)
  {
  }
}
