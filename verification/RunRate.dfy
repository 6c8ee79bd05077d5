/** The hourly ceiling seen from whole histories of runs. */
module RunRate {
  import opened Common
  import opened Books
  import opened Engine
  import History
  import RateLimit

  ghost predicate SameGate(b: Books, b': Books) {
    b'.buckets == b.buckets && b'.hourlyLimit == b.hourlyLimit
  }

  lemma BookkeepingKeepsGate(b: Books, reservation: Option<Id>, status: ReservationStatus, estimate: int, logId: Id)
    ensures SameGate(b, SetReservation(b, reservation, status))
    ensures SameGate(b, RecordSpend(b, estimate, reservation, logId))
  {
  }

  lemma ApplyKeepsGate(b: Books, call: Call, work: Work, tokens: int, logId: Id, fault: Fault)
    ensures SameGate(b, Apply(b, call, work, tokens, logId, fault).0)
  {
    hide HasPlatform, Post;
  }

  lemma CommitKeepsGate(b: Books, call: Call, work: Work, effects: Effects, reservation: Option<Id>, fault: Fault)
    ensures SameGate(b, Commit(b, call, work, effects, reservation, fault).0)
  {
    hide Apply, SetReservation, RecordSpend, Estimate;
    var logged := AppendLog(b, call, Success, effects.tokens, effects.cost);
    ApplyKeepsGate(logged, call, work, effects.tokens, b.next, fault);
    BookkeepingKeepsGate(Apply(logged, call, work, effects.tokens, b.next, fault).0, reservation, Released, Estimate(call), b.next);
  }

  lemma ExecuteKeepsGate(b: Books, call: Call)
    requires Execute(b, call).Some?
    ensures SameGate(b, Execute(b, call).value.0)
  {
    hide ResolveDraft, CostOfLog;
  }

  lemma PerformKeepsGate(b: Books, call: Call, reservation: Option<Id>, fault: Fault)
    ensures SameGate(b, Perform(b, call, reservation, fault).0)
  {
    hide Commit, SetReservation, FinalEffects, Execute;
    BookkeepingKeepsGate(b, reservation, Released, 0, 0);
    if Execute(b, call).Some? {
      var (executed, work) := Execute(b, call).value;
      ExecuteKeepsGate(b, call);
      BookkeepingKeepsGate(executed, reservation, Released, 0, 0);
      CommitKeepsGate(executed, call, work, FinalEffects(executed, call, work), reservation, fault);
    }
  }

  lemma ReserveKeepsGate(b: Books, call: Call)
    ensures SameGate(b, LogRefusal(b, call))
    ensures Reserve(b, Estimate(call)).Some? ==> SameGate(b, Reserve(b, Estimate(call)).value.0)
  {
    hide Estimate;
  }

  lemma AdmittedKeepsGate(b: Books, call: Call, fault: Fault)
    ensures SameGate(b, Admitted(b, call, fault).0)
  {
    hide Perform, Permitted, Estimate, Reserve, LogRefusal;
    ReserveKeepsGate(b, call);
    if Reserve(b, Estimate(call)).Some? {
      var (reserved, reservation) := Reserve(b, Estimate(call)).value;
      PerformKeepsGate(reserved, call, reservation, fault);
    }
  }

  /** A run presents itself to the gate exactly when it is an active agent's clause run; the gate alone writes the
    * buckets, and only accepted runs complete. */
  lemma RunPassesGate(b: Books, call: Call, now: int, prune: bool, fault: Fault)
    ensures var (b', outcome) := Run(b, call, now, prune, fault);
            var (buckets, ok) := RateLimit.CheckAndIncrement(b.buckets, b.hourlyLimit, call.agent, now, prune);
            && b'.hourlyLimit == b.hourlyLimit
            && b'.buckets == (if IsClause(call) && IsActive(b, call.agent) then buckets else b.buckets)
            && (outcome.Completed? && IsClause(call) ==> IsActive(b, call.agent) && ok)
  {
    hide Admitted, IsActive, RateLimit.CheckAndIncrement;
    var gated := Gate(b, call, now, prune).0;
    AdmittedKeepsGate(gated, call, fault);
  }

  lemma AdministrationKeepsGate(b: Books, op: History.Op)
    requires !op.RunTool?
    ensures SameGate(b, History.Step(b, op))
  {
    hide History.Step;
    History.AdministrationWrites(b, op);
  }

  lemma CompletedPassedGate(b: Books, op: History.Op)
    requires op.RunTool? && IsClause(op.call) && History.OutcomeOf(b, op).Completed?
    ensures IsGated(b, op) && RateLimit.CheckAndIncrement(b.buckets, b.hourlyLimit, op.call.agent, op.now, op.prune).1
  {
    hide Run;
    RunPassesGate(b, op.call, op.now, op.prune, op.fault);
  }

  // ---- Histories --------------------------------------------------------------------------------

  predicate IsGated(b: Books, op: History.Op) {
    op.RunTool? && IsClause(op.call) && IsActive(b, op.call.agent)
  }

  /** The calls a history presents to the gate. */
  function Attempts(b: Books, ops: seq<History.Op>): seq<RateLimit.Attempt> {
    if ops == [] then []
    else
      var n := |ops| - 1;
      if IsGated(History.Replay(b, ops[..n]), ops[n])
      then Attempts(b, ops[..n]) + [RateLimit.Attempt(ops[n].call.agent, ops[n].now, ops[n].prune)]
      else Attempts(b, ops[..n])
  }

  lemma GateAppends(limit: int, calls: seq<RateLimit.Attempt>, last: RateLimit.Attempt)
    ensures RateLimit.Replay(limit, calls + [last])
         == RateLimit.CheckAndIncrement(RateLimit.Replay(limit, calls), limit, last.agent, last.now, last.prune).0
  {
    assert (calls + [last])[..|calls|] == calls;
  }

  lemma {:induction false} BucketsFollowAttempts(b: Books, ops: seq<History.Op>)
    requires b.buckets == map[]
    ensures var b' := History.Replay(b, ops);
            b'.hourlyLimit == b.hourlyLimit && b'.buckets == RateLimit.Replay(b.hourlyLimit, Attempts(b, ops))
  {
    if ops != [] {
      var n := |ops| - 1;
      var before, op := History.Replay(b, ops[..n]), ops[n];
      BucketsFollowAttempts(b, ops[..n]);
      hide IsActive, Run, IsClause, RateLimit.CheckAndIncrement, RateLimit.Replay;
      if op.RunTool? {
        RunPassesGate(before, op.call, op.now, op.prune, op.fault);
        if IsGated(before, op) {
          GateAppends(b.hourlyLimit, Attempts(b, ops[..n]), RateLimit.Attempt(op.call.agent, op.now, op.prune));
        }
      } else {
        AdministrationKeepsGate(before, op);
      }
    }
  }

  /** How many clause runs of this agent with a gate time in [from, to) completed. */
  ghost function CompletedIn(b: Books, ops: seq<History.Op>, agent: Id, from: int, to: int): nat {
    if ops == [] then 0
    else
      var n := |ops| - 1;
      CompletedIn(b, ops[..n], agent, from, to)
      + if ops[n].RunTool? && IsClause(ops[n].call) && ops[n].call.agent == agent && from <= ops[n].now < to
           && History.OutcomeOf(History.Replay(b, ops[..n]), ops[n]).Completed? then 1 else 0
  }

  lemma {:induction false} AcceptedInPrefix(limit: int, calls: seq<RateLimit.Attempt>, more: seq<RateLimit.Attempt>, n: nat,
                                            agent: Id, from: int, to: int)
    requires n <= |calls|
    ensures RateLimit.AcceptedIn(limit, calls + more, n, agent, from, to) == RateLimit.AcceptedIn(limit, calls, n, agent, from, to)
  {
    if n > 0 {
      AcceptedInPrefix(limit, calls, more, n - 1, agent, from, to);
      assert (calls + more)[..n - 1] == calls[..n - 1];
    }
  }

  /** One more attempt, one more acceptance if it passes. */
  lemma AcceptedNext(limit: int, calls: seq<RateLimit.Attempt>, last: RateLimit.Attempt, agent: Id, from: int, to: int)
    ensures var passes := RateLimit.CheckAndIncrement(RateLimit.Replay(limit, calls), limit, last.agent, last.now, last.prune).1;
            RateLimit.AcceptedIn(limit, calls + [last], |calls| + 1, agent, from, to)
            == RateLimit.AcceptedIn(limit, calls, |calls|, agent, from, to)
               + if last.agent == agent && from <= last.now < to && passes then 1 else 0
  {
    AcceptedInPrefix(limit, calls, [last], |calls|, agent, from, to);
    assert (calls + [last])[..|calls|] == calls;
  }

  lemma {:induction false} CompletedWereAccepted(b: Books, ops: seq<History.Op>, agent: Id, from: int, to: int)
    requires b.buckets == map[]
    ensures CompletedIn(b, ops, agent, from, to)
         <= RateLimit.AcceptedIn(b.hourlyLimit, Attempts(b, ops), |Attempts(b, ops)|, agent, from, to)
  {
    if ops != [] {
      var n := |ops| - 1;
      var before, op := History.Replay(b, ops[..n]), ops[n];
      CompletedWereAccepted(b, ops[..n], agent, from, to);
      BucketsFollowAttempts(b, ops[..n]);
      hide IsGated, IsClause, History.OutcomeOf, RateLimit.CheckAndIncrement, RateLimit.Replay, History.Replay, RateLimit.AcceptedIn;
      if op.RunTool? && IsClause(op.call) && History.OutcomeOf(before, op).Completed? {
        CompletedPassedGate(before, op);
      }
      if IsGated(before, op) {
        GatedIsRun(before, op);
        AcceptedNext(b.hourlyLimit, Attempts(b, ops[..n]), RateLimit.Attempt(op.call.agent, op.now, op.prune), agent, from, to);
      }
    }
  }

  lemma GatedIsRun(b: Books, op: History.Op)
    requires IsGated(b, op)
    ensures op.RunTool?
  {
  }

  ghost predicate ClockNeverRunsBack(ops: seq<History.Op>) {
    forall i, j :: 0 <= i < j < |ops| && ops[i].RunTool? && ops[j].RunTool? ==> ops[i].now <= ops[j].now
  }

  lemma {:induction false} AttemptsUntil(b: Books, ops: seq<History.Op>, latest: int)
    requires forall i :: 0 <= i < |ops| && ops[i].RunTool? ==> ops[i].now <= latest
    ensures forall k :: 0 <= k < |Attempts(b, ops)| ==> Attempts(b, ops)[k].now <= latest
  {
    if ops != [] {
      AttemptsUntil(b, ops[..|ops| - 1], latest);
      hide IsActive, IsClause, History.Replay;
    }
  }

  lemma {:induction false} AttemptsAreInOrder(b: Books, ops: seq<History.Op>)
    requires ClockNeverRunsBack(ops)
    ensures RateLimit.ClockNeverRunsBack(Attempts(b, ops))
  {
    if ops != [] {
      var n := |ops| - 1;
      AttemptsAreInOrder(b, ops[..n]);
      hide IsActive, IsClause, History.Replay;
      if ops[n].RunTool? {
        AttemptsUntil(b, ops[..n], ops[n].now);
      }
    }
  }

  /** Main result: from empty buckets and under a positive hourly limit, whatever the history does, an agent completes at
    * most `limit` clause runs gated in one window and at most twice that in any sixty minutes. */
  lemma CompletedRunsStayUnderLimit(b: Books, ops: seq<History.Op>, agent: Id, window: int, start: int)
    requires b.buckets == map[] && b.hourlyLimit > 0 && ClockNeverRunsBack(ops)
    ensures CompletedIn(b, ops, agent, window * RateLimit.HOUR, (window + 1) * RateLimit.HOUR) <= b.hourlyLimit
    ensures CompletedIn(b, ops, agent, start, start + RateLimit.HOUR) <= 2 * b.hourlyLimit
  {
    var calls := Attempts(b, ops);
    AttemptsAreInOrder(b, ops);
    CompletedWereAccepted(b, ops, agent, window * RateLimit.HOUR, (window + 1) * RateLimit.HOUR);
    CompletedWereAccepted(b, ops, agent, start, start + RateLimit.HOUR);
    RateLimit.BucketCountsAcceptedCalls(b.hourlyLimit, calls, |calls|, agent, window);
    RateLimit.AnySixtyMinutesHoldAtMostTwiceTheLimit(b.hourlyLimit, calls, agent, start);
  }
}
