/** The budget limit over sequential histories that rebuild the counter. */
module RebuiltCeiling {
  import opened Common
  import opened Books
  import opened Sums
  import opened Engine
  import opened Accounting
  import opened History
  import Interleaving
  import Reconciliation
  import Ceiling

  // ---- A run only adds log rows -----------------------------------------------------------------------

  lemma {:induction false} PlayIsLater(b: Books, slot: Interleaving.Slot, actions: seq<Interleaving.Action>)
    requires Reconciliation.Sound(b) && Reconciliation.Placed(b, slot)
    ensures var played := Interleaving.Play(b, slot, actions);
            Reconciliation.Sound(played.0) && b.logs <= played.0.logs
    decreases |actions|
  {
    if actions != [] {
      var next := Interleaving.Advance(b, slot, actions[0]);
      Reconciliation.AdvanceAccounts(b, slot, actions[0]);
      hide Interleaving.Advance, Reconciliation.Sound, Reconciliation.Placed;
      PlayIsLater(next.0, next.1, actions[1..]);
    }
  }

  lemma RunIsLater(b: Books, call: Call, now: int, prune: bool, fault: Fault)
    requires Reconciliation.Sound(b)
    ensures b.logs <= Run(b, call, now, prune, fault).0.logs
  {
    var entered := Interleaving.Advance(b, None, Interleaving.Enter(call, now, prune));
    Reconciliation.AdvanceAccounts(b, None, Interleaving.Enter(call, now, prune));
    hide Run, Interleaving.Advance, Interleaving.Play, Reconciliation.Sound;
    Interleaving.SoloRunIsRun(b, call, now, prune, fault);
    PlayIsLater(entered.0, entered.1, Interleaving.Steps(call, fault));
  }

  lemma KeptIsSound(b: Books, orphans: set<Id>)
    requires Kept(b, orphans)
    ensures Reconciliation.Sound(b)
  {
    forall i | 0 <= i < |b.ledger| ensures Reconciliation.IsLogged(b.logs, b.ledger[i].logId) {
      assert IsBacked(b.logs, b.ledger[i]);
    }
  }

  // ---- Orphans are in the log ---------------------------------------------------------------------------

  ghost predicate InLog(logs: seq<LogRow>, id: Id) {
    exists k :: 0 <= k < |logs| && logs[k].id == id
  }

  lemma CommitLogsItsAbort(b: Books, call: Call, work: Work, effects: Effects, reservation: Option<Id>, fault: Fault)
    ensures var c := Commit(b, call, work, effects, reservation, fault);
            c.1.Aborted? ==> InLog(c.0.logs, c.1.logId) && c.1.logId == b.next
  {
    hide Estimate, RecordSpend, HasPlatform, Post;
    var logged := AppendLog(b, call, Success, effects.tokens, effects.cost);
    assert logged.logs[|b.logs|].id == b.next;
    var applied := Apply(logged, call, work, effects.tokens, b.next, fault).0;
    assert applied.logs == logged.logs && SetReservation(applied, reservation, Released).logs == applied.logs;
  }

  lemma PerformLogsItsAbort(b: Books, call: Call, reservation: Option<Id>, fault: Fault)
    ensures var r := Perform(b, call, reservation, fault); r.1.Aborted? ==> InLog(r.0.logs, r.1.logId) && r.1.logId >= b.next
  {
    hide Commit, Execute, FinalEffects, SetReservation, LogRefusal, InLog;
    if Execute(b, call).Some? {
      var (executed, work) := Execute(b, call).value;
      Reconciliation.ExecuteKeepsMoney(b, call);
      CommitLogsItsAbort(executed, call, work, FinalEffects(executed, call, work), reservation, fault);
    }
  }

  lemma RunLogsItsAbort(b: Books, call: Call, now: int, prune: bool, fault: Fault)
    ensures var r := Run(b, call, now, prune, fault); r.1.Aborted? ==> InLog(r.0.logs, r.1.logId) && r.1.logId >= b.next
  {
    hide Perform, LogRefusal, Gate, Permitted, IsActive, InLog, Estimate, Reserve;
    var gated := Gate(b, call, now, prune).0;
    GatesKeepMoney(b, call, now, prune, gated);
    if Reserve(gated, Estimate(call)).Some? {
      var (reserved, reservation) := Reserve(gated, Estimate(call)).value;
      PerformLogsItsAbort(reserved, call, reservation, fault);
    }
  }

  // ---- What rebuilds have absorbed ------------------------------------------------------------------------

  /** The orphans a rebuild has put into the counter. */
  function Absorbed(orphans: set<Id>, missed: set<Id>): set<Id> {
    orphans - missed
  }

  lemma {:induction false} WithinPrefix(logs: seq<LogRow>, logs': seq<LogRow>, next: Id, ids: set<Id>)
    requires logs <= logs' && LogsOrdered(logs', next) && forall id :: id in ids ==> InLog(logs, id)
    ensures TotalWithin(logs', CostOf, ids) == TotalWithin(logs, CostOf, ids)
  {
    if |logs'| > |logs| {
      var n := |logs'| - 1;
      WithinPrefix(logs, logs'[..n], next, ids);
      assert forall k :: 0 <= k < |logs| ==> logs[k].id == logs'[k].id < logs'[n].id;
      assert !InLog(logs, logs'[n].id);
    } else {
      assert logs' == logs;
    }
  }

  lemma {:induction false} WithinGrows(logs: seq<LogRow>, ids: set<Id>, ids': set<Id>)
    requires ids <= ids' && CostsNonNegative(logs)
    ensures 0 <= TotalWithin(logs, CostOf, ids) <= TotalWithin(logs, CostOf, ids')
  {
    if logs != [] {
      assert CostsNonNegative(logs[..|logs| - 1]);
      WithinGrows(logs[..|logs| - 1], ids, ids');
    }
  }

  lemma {:induction false} WithinSplits(logs: seq<LogRow>, ids: set<Id>, ids': set<Id>)
    requires ids !! ids'
    ensures TotalWithin(logs, CostOf, ids + ids') == TotalWithin(logs, CostOf, ids) + TotalWithin(logs, CostOf, ids')
  {
    if logs != [] {
      WithinSplits(logs[..|logs| - 1], ids, ids');
    }
  }

  /** The spend is within the limit but for what rebuilds have absorbed. */
  ghost predicate WithinOrphans(b: Books, orphans: set<Id>, missed: set<Id>) {
    && b.counter.Some? && b.counter.value.spent >= 0
    && (forall id :: id in orphans ==> InLog(b.logs, id))
    && (b.counter.value.limit > 0 ==>
          b.counter.value.spent <= b.counter.value.limit + TotalWithin(b.logs, CostOf, Absorbed(orphans, missed)))
  }

  /** From the gate on, a run ends within the limit or no higher than it began. */
  lemma RunSpendsToLimit(b: Books, call: Call, now: int, prune: bool, fault: Fault)
    requires b.counter.Some? && b.counter.value.spent >= 0
    ensures var c := Run(b, call, now, prune, fault).0.counter;
            && c.Some? && c.value.limit == b.counter.value.limit && c.value.spent >= 0
            && (c.value.limit > 0 ==> c.value.spent <= b.counter.value.spent || c.value.spent <= c.value.limit)
  {
    hide Perform, Estimate, Permitted, IsActive, Gate, Reserve, LogRefusal;
    var gated := Gate(b, call, now, prune).0;
    Ceiling.GatingKeepsCounter(b, call, now, prune);
    Ceiling.RefusalKeepsCounter(gated, call);
    if Reserve(gated, Estimate(call)).Some? {
      Ceiling.ReserveAdmits(gated, Estimate(call));
      var (reserved, reservation) := Reserve(gated, Estimate(call)).value;
      Ceiling.PerformBounded(reserved, call, reservation, fault);
    }
  }

  lemma InLogStays(logs: seq<LogRow>, logs': seq<LogRow>, id: Id)
    requires logs <= logs' && InLog(logs, id)
    ensures InLog(logs', id)
  {
    var k :| 0 <= k < |logs| && logs[k].id == id;
    assert logs'[k].id == id;
  }

  lemma RunStaysWithin(b: Books, call: Call, now: int, prune: bool, fault: Fault, orphans: set<Id>, missed: set<Id>)
    requires Matched(b, orphans, missed) && WithinOrphans(b, orphans, missed) && LeavesCostToEngine(call) && SettlesOrNot(fault)
    ensures var r := Run(b, call, now, prune, fault);
            WithinOrphans(r.0, OrphansAfter(orphans, r.1), OrphansAfter(missed, r.1))
  {
    var (b', outcome) := Run(b, call, now, prune, fault);
    var orphans', missed' := OrphansAfter(orphans, outcome), OrphansAfter(missed, outcome);
    KeptIsSound(b, orphans);
    RunIsLater(b, call, now, prune, fault);
    RunKeepsCounter(b, call, now, prune, fault, orphans, missed);
    RunLogsItsAbort(b, call, now, prune, fault);
    RunSpendsToLimit(b, call, now, prune, fault);
    hide Run, InLog, Reconciliation.Sound;
    assert LogsOrdered(b'.logs, b'.next) && CostsNonNegative(b'.logs);
    forall id | id in orphans' ensures InLog(b'.logs, id) {
      if id in orphans {
        InLogStays(b.logs, b'.logs, id);
      }
    }
    var absorbed := Absorbed(orphans, missed);
    assert forall id :: id in orphans ==> id < b.next;
    WithinPrefix(b.logs, b'.logs, b'.next, absorbed);
    WithinGrows(b'.logs, absorbed, Absorbed(orphans', missed'));
  }

  lemma RebuildStaysWithin(b: Books, orphans: set<Id>, missed: set<Id>)
    requires Matched(b, orphans, missed) && WithinOrphans(b, orphans, missed)
    ensures WithinOrphans(Rebuild(b), orphans, {})
  {
    GapIsOrphanCost(b, orphans, missed);
    WithinSplits(b.logs, Absorbed(orphans, missed), missed);
    assert Absorbed(orphans, missed) + missed == orphans && Absorbed(orphans, {}) == orphans;
    TotalCoversEach(b.logs, CostOf, ReversedIds(b.ledger));
    hide RebuiltSpend, InLog, Kept;
  }

  lemma StepStaysWithin(b: Books, op: Op, orphans: set<Id>, missed: set<Id>)
    requires Matched(b, orphans, missed) && WithinOrphans(b, orphans, missed) && Ordinary(op)
    ensures WithinOrphans(Step(b, op), OrphansAfter(orphans, OutcomeOf(b, op)),
                    if op.RebuildBudget? then {} else OrphansAfter(missed, OutcomeOf(b, op)))
    ensures Step(b, op).counter.Some? && b.counter.Some? && Step(b, op).counter.value.limit == b.counter.value.limit
  {
    if op.RunTool? {
      RunStaysWithin(b, op.call, op.now, op.prune, op.fault, orphans, missed);
      RunSpendsToLimit(b, op.call, op.now, op.prune, op.fault);
      hide Run;
    } else if op.RebuildBudget? {
      RebuildStaysWithin(b, orphans, missed);
      hide RebuiltSpend;
    } else {
      QuietStaysWithin(b, op, orphans, missed);
    }
  }

  lemma QuietStaysWithin(b: Books, op: Op, orphans: set<Id>, missed: set<Id>)
    requires WithinOrphans(b, orphans, missed) && !op.RunTool? && !op.RebuildBudget?
    ensures WithinOrphans(Step(b, op), orphans, missed) && Step(b, op).counter == b.counter
  {
    Ceiling.AdministrationKeepsCounter(b, op);
    assert Step(b, op).logs == b.logs by { hide HasPlatform, TierIsFull, InLog; }
    hide Step;
  }

  /** Main result: over every history of the repository's tools, rebuilds included, the spend stays within the limit plus the
    * cost of the runs that failed in Step 6 and were absorbed by a rebuild since; it never falls below zero. */
  lemma {:induction false} HistoryStaysWithinOrphans(b: Books, ops: seq<Op>)
    requires Matched(b, {}, {}) && Ceiling.Within(b.counter) && forall i :: 0 <= i < |ops| ==> Ordinary(ops[i])
    ensures Matched(Replay(b, ops), Orphans(b, ops, {}), Missed(b, ops, {}))
    ensures WithinOrphans(Replay(b, ops), Orphans(b, ops, {}), Missed(b, ops, {}))
    ensures Replay(b, ops).counter.value.limit == b.counter.value.limit
  {
    hide Matched, Step, Ordinary, OutcomeOf, OrphansAfter;
    if ops != [] {
      var n := |ops| - 1;
      HistoryStaysWithinOrphans(b, ops[..n]);
      hide WithinOrphans;
      assert Ordinary(ops[n]);
      StepKeepsCounter(Replay(b, ops[..n]), ops[n], Orphans(b, ops[..n], {}), Missed(b, ops[..n], {}));
      StepStaysWithin(Replay(b, ops[..n]), ops[n], Orphans(b, ops[..n], {}), Missed(b, ops[..n], {}));
    } else {
      NothingAbsorbed(b.logs);
    }
  }

  lemma NothingAbsorbed(logs: seq<LogRow>)
    ensures TotalWithin(logs, CostOf, Absorbed({}, {})) == 0
  {
    assert Absorbed({}, {}) == {};
    NothingWithinNothing(logs);
  }
}
