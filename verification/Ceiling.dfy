/** The budget limit over runs one after another. */
module Ceiling {
  import opened Common
  import opened Books
  import opened Engine
  import opened History
  import RateLimit

  /** A counter whose spend is not negative and, under a positive limit, within it. */
  predicate Within(c: Option<Counter>) {
    c.Some? && 0 <= c.value.spent && (c.value.limit > 0 ==> c.value.spent <= c.value.limit)
  }

  /** The counter moved by no more than a charge that its check admitted. */
  ghost predicate Bounded(c: Option<Counter>, c': Option<Counter>, charge: int) {
    c.Some? && c.value.spent >= 0 ==>
      c'.Some? && c'.value.limit == c.value.limit && 0 <= c'.value.spent <= c.value.spent + if charge > 0 then charge else 0
  }

  lemma ApplyBounded(b: Books, call: Call, work: Work, tokens: int, logId: Id, fault: Fault)
    ensures Bounded(b.counter, Apply(b, call, work, tokens, logId, fault).0.counter, 0)
  {
    hide Post, HasPlatform;
  }

  lemma ReservingKeepsCounter(b: Books, reservation: Option<Id>, status: ReservationStatus)
    ensures SetReservation(b, reservation, status).counter == b.counter
  {
  }

  lemma SpendBounded(b: Books, estimate: int, reservation: Option<Id>, logId: Id)
    ensures Bounded(b.counter, RecordSpend(b, estimate, reservation, logId).counter, estimate)
  {
    hide SetReservation;
    ReservingKeepsCounter(b.(counter := Charge(b.counter, estimate)), reservation, Settled(logId));
  }

  lemma CommitBounded(b: Books, call: Call, work: Work, effects: Effects, reservation: Option<Id>, fault: Fault)
    ensures Bounded(b.counter, Commit(b, call, work, effects, reservation, fault).0.counter, Estimate(call))
  {
    hide Apply, SetReservation, RecordSpend, Estimate;
    var logged := AppendLog(b, call, Success, effects.tokens, effects.cost);
    ApplyBounded(logged, call, work, effects.tokens, b.next, fault);
    var applied := Apply(logged, call, work, effects.tokens, b.next, fault).0;
    ReservingKeepsCounter(applied, reservation, Released);
    SpendBounded(applied, Estimate(call), reservation, b.next);
  }

  lemma PerformBounded(b: Books, call: Call, reservation: Option<Id>, fault: Fault)
    ensures Bounded(b.counter, Perform(b, call, reservation, fault).0.counter, Estimate(call))
  {
    hide Commit, SetReservation, FinalEffects, Estimate, ResolveDraft, CostOfLog;
    ReservingKeepsCounter(b, reservation, Released);
    if Execute(b, call).Some? {
      var (executed, work) := Execute(b, call).value;
      ReservingKeepsCounter(executed, reservation, Released);
      CommitBounded(executed, call, work, FinalEffects(executed, call, work), reservation, fault);
    }
  }

  lemma GatingKeepsCounter(b: Books, call: Call, now: int, prune: bool)
    ensures Gate(b, call, now, prune).0.counter == b.counter
  {
    hide RateLimit.CheckAndIncrement;
  }

  lemma ReserveAdmits(b: Books, estimate: int)
    requires Reserve(b, estimate).Some?
    ensures Reserve(b, estimate).value.0.counter == b.counter
    ensures estimate > 0 && b.counter.Some? ==> Admits(b.counter.value, estimate)
  {
  }

  lemma BoundedStaysWithin(c: Option<Counter>, c': Option<Counter>, charge: int)
    requires Within(c) && Bounded(c, c', charge) && (charge > 0 ==> Admits(c.value, charge))
    ensures Within(c') && c'.value.limit == c.value.limit
  {
  }

  lemma RefusalKeepsCounter(b: Books, call: Call)
    ensures LogRefusal(b, call).counter == b.counter
  {
  }

  /** From the budget gate on: what the gate admits is all that is charged. */
  lemma AdmittedStaysWithin(b: Books, call: Call, fault: Fault)
    requires Within(b.counter)
    ensures var c := Admitted(b, call, fault).0.counter;
            Within(c) && c.value.limit == b.counter.value.limit
  {
    assert b.counter.Some?;
    hide Perform, Estimate, Permitted, Reserve, Bounded, Within, LogRefusal, Engine.Admits;
    RefusalKeepsCounter(b, call);
    if Reserve(b, Estimate(call)).Some? {
      ReserveAdmits(b, Estimate(call));
      var (reserved, reservation) := Reserve(b, Estimate(call)).value;
      PerformBounded(reserved, call, reservation, fault);
      BoundedStaysWithin(reserved.counter, Perform(reserved, call, reservation, fault).0.counter, Estimate(call));
    }
  }

  /** A run one at a time keeps the spend within the limit, whatever fails in it, and never touches the limit. */
  lemma RunStaysWithin(b: Books, call: Call, now: int, prune: bool, fault: Fault)
    requires Within(b.counter)
    ensures var c := Run(b, call, now, prune, fault).0.counter;
            Within(c) && c.value.limit == b.counter.value.limit
  {
    assert b.counter.Some?;
    hide Admitted, IsActive, Gate, LogRefusal, Within;
    var gated := Gate(b, call, now, prune).0;
    GatingKeepsCounter(b, call, now, prune);
    RefusalKeepsCounter(gated, call);
    AdmittedStaysWithin(gated, call, fault);
  }

  /** Main result: without a rebuild, every history of sequential runs stays within the limit the counter was created
    * with. */
  lemma {:induction false} HistoryStaysWithin(b: Books, ops: seq<Op>)
    requires Within(b.counter) && forall i :: 0 <= i < |ops| ==> !ops[i].RebuildBudget?
    ensures Within(Replay(b, ops).counter) && Replay(b, ops).counter.value.limit == b.counter.value.limit
  {
    if ops != [] {
      var before, op := Replay(b, ops[..|ops| - 1]), ops[|ops| - 1];
      HistoryStaysWithin(b, ops[..|ops| - 1]);
      if op.RunTool? {
        hide Run;
        RunStaysWithin(before, op.call, op.now, op.prune, op.fault);
      } else {
        AdministrationKeepsCounter(before, op);
      }
    }
  }

  lemma AdministrationKeepsCounter(b: Books, op: Op)
    requires b.counter.Some? && !op.RunTool? && !op.RebuildBudget?
    ensures Step(b, op).counter == b.counter
  {
    hide HasPlatform, TierIsFull;
  }
}
