/** The running balance when runs interleave: ConfirmContribution sums an agent's rows and inserts the new one in two
  * statements (internal/tokens/tokens.go), so a row may carry a balance that is no longer current. */
module StaleSums {
  import opened Common
  import opened Books
  import opened Engine
  import opened Interleaving
  import opened Balances
  import RateLimit

  // ---- What a step does to the ledger -----------------------------------------------------------------

  /** Agents named by a run in flight were drawn from the counter. */
  ghost predicate AgentKnown(b: Books, slot: Slot) {
    slot.Some? ==>
      var Flight(call, s) := slot.value;
      && call.agent < b.next
      && (s.Claiming? ==> s.proposer < b.next)
      && (s.Worked? || s.Logged? ==> s.work.Claimed? ==> s.work.proposer < b.next)
      && (s.Summed? ==> s.proposer < b.next)
  }

  predicate IsAward(slot: Slot, action: Action) {
    slot.Some? && slot.value.stage.Summed? && action.Finish? && !action.fails
  }

  /** A row is added for an award, or opens the account of a new agent; or a log's rows are reversed. */
  ghost predicate LedgerMoves(b: Books, slot: Slot, action: Action, b': Books) {
    if IsAward(slot, action) then b'.ledger == b.ledger + [AwardRow(slot.value.stage)]
    else
      || b'.ledger == b.ledger
      || (exists target :: b'.ledger == Reverse(b.ledger, target))
      || OpensAccount(b, b'.ledger)
  }

  ghost predicate OpensAccount(b: Books, ledger': seq<LedgerRow>) {
    && |ledger'| == |b.ledger| + 1 && ledger'[..|b.ledger|] == b.ledger
    && var row := ledger'[|b.ledger|];
       row.agent == b.next && row.status == Confirmed && row.balanceAfter == row.delta
  }

  ghost predicate StepKnown(b: Books, slot: Slot, action: Action, b': Books, slot': Slot) {
    b'.next >= b.next && AgentsKnown(b') && AgentKnown(b', slot') && LedgerMoves(b, slot, action, b')
  }

  lemma QuietStep(b: Books, slot: Slot, action: Action, b': Books, slot': Slot)
    requires AgentsKnown(b) && AgentKnown(b, slot) && SameAgents(b, b') && !IsAward(slot, action)
    requires slot'.Some? ==> AgentKnown(b', slot')
    ensures StepKnown(b, slot, action, b', slot')
  {
    SameAgentsKnown(b, b');
    hide AgentsKnown, SameAgents;
    assert b'.ledger == b.ledger && b'.next >= b.next by { SameAgentsMeans(b, b'); }
  }

  lemma SameAgentsMeans(b: Books, b': Books)
    requires SameAgents(b, b')
    ensures b'.ledger == b.ledger && b'.next >= b.next
  {
  }

  lemma EnteringKnown(b: Books, call: Call, now: int, prune: bool)
    requires AgentsKnown(b)
    ensures SameAgents(b, Entering(b, call, now, prune).0)
    ensures AgentKnown(Entering(b, call, now, prune).0, Entering(b, call, now, prune).1)
  {
    assert IsActive(b, call.agent) ==> call.agent < b.next;
    hide Gate, LogRefusal, Permitted, IsActive, AgentsKnown, Reserve, Estimate;
    var gated := Gate(b, call, now, prune).0;
    GatesKeepAgents(b, call, now, prune, gated);
    SameAgentsMeans(b, gated);
    SameAgentsMeans(b, LogRefusal(gated, call));
  }

  lemma RefusingSameAgents(b: Books, call: Call, reservation: Option<Id>)
    ensures SameAgents(b, Refuse(b, call, reservation).0) && Refuse(b, call, reservation).1 == None
    ensures SameAgents(b, Abort(b, reservation).0) && Abort(b, reservation).1 == None
    ensures SameAgents(b, LogRefusal(b, call))
  {
    hide AppendLog, SetReservation;
    var released := SetReservation(b, reservation, Released);
    ReservingKeepsAgents(b, reservation, Released);
    LoggingKeepsAgents(b, call, Refusal, 0, 0);
    LoggingKeepsAgents(released, call, Refusal, 0, 0);
  }

  lemma AuthorizingKnown(b: Books, call: Call)
    requires call.agent < b.next
    ensures SameAgents(b, Authorizing(b, call).0)
    ensures AgentKnown(Authorizing(b, call).0, Authorizing(b, call).1)
  {
    hide Estimate, LogRefusal;
    RefusingSameAgents(b, call, None);
  }

  lemma SameAgentsOn(b: Books, b': Books, b'': Books)
    requires SameAgents(b, b') && SameAgents(b', b'')
    ensures SameAgents(b, b'')
  {
  }

  lemma PricingKnown(b: Books, b': Books, call: Call, work: Work, reservation: Option<Id>)
    requires SameAgents(b, b') && call.agent < b.next && (work.Claimed? ==> work.proposer < b.next)
    ensures var next := Pricing(b', call, work, reservation); SameAgents(b, next.0) && AgentKnown(next.0, next.1)
  {
    hide FinalEffects, Refuse, SameAgents;
    RefusingSameAgents(b', call, reservation);
    SameAgentsOn(b, b', Refuse(b', call, reservation).0);
    SameAgentsMeans(b, b');
  }

  lemma WorkingKnown(b: Books, call: Call, reservation: Option<Id>)
    requires AgentsKnown(b) && call.agent < b.next
    ensures var next := Working(b, call, reservation); SameAgents(b, next.0) && AgentKnown(next.0, next.1)
  {
    hide Execute, Pricing, Refuse, ResolveDraft, AgentsKnown, WorkKnown;
    RefusingSameAgents(b, call, reservation);
    if Execute(b, call).Some? && !call.CallApprove? {
      var (executed, work) := Execute(b, call).value;
      ExecuteKeepsAgents(b, call);
      WorkIsNoClaim(b, call);
      PricingKnown(b, executed, call, work, reservation);
    }
  }

  lemma WorkIsNoClaim(b: Books, call: Call)
    requires Execute(b, call).Some? && !call.CallApprove?
    ensures !Execute(b, call).value.1.Claimed?
  {
  }

  lemma ClaimingKnown(b: Books, call: Call, s: Stage, fails: bool)
    requires AgentsKnown(b) && AgentKnown(b, Some(Flight(call, s)))
    ensures s.Resolved? ==> var next := Reading(b, call, s); SameAgents(b, next.0) && AgentKnown(next.0, next.1)
    ensures s.Claiming? ==> var next := Deleting(b, call, s, fails); SameAgents(b, next.0) && AgentKnown(next.0, next.1)
    ensures s.Worked? ==> var next := Logging(b, call, s, fails); SameAgents(b, next.0) && AgentKnown(next.0, next.1)
  {
    hide Pricing, Refuse, SetReservation, AppendLog;
    if !s.Entered? {
      RefusingSameAgents(b, call, s.reservation);
    }
    if s.Claiming? {
      PricingKnown(b, b.(pending := b.pending - {s.draft}), call, ClaimedBy(call, s.draft, s.proposer), s.reservation);
    }
    if s.Worked? && !fails {
      var logged := AppendLog(b, call, Success, s.effects.tokens, s.effects.cost);
      LoggingKeepsAgents(b, call, Success, s.effects.tokens, s.effects.cost);
      SameAgentsMeans(b, logged);
    }
  }

  lemma ActingKnown(b: Books, call: Call, s: Stage, fails: bool, action: Action)
    requires s.Logged? && AgentsKnown(b) && AgentKnown(b, Some(Flight(call, s))) && action == Act(fails)
    ensures var next := Acting(b, call, s, fails); StepKnown(b, Some(Flight(call, s)), action, next.0, next.1)
  {
    hide Abort, Balance, Resolvable;
    RefusingSameAgents(b, call, s.reservation);
    if fails {
      QuietStep(b, Some(Flight(call, s)), action, Abort(b, s.reservation).0, None);
    } else if s.work.ToReverse? {
      var b' := b.(ledger := Reverse(b.ledger, s.work.logId));
      assert AgentsKnown(b');
    } else if s.work.ToApprove? || s.work.ToReject? {
      hide AgentsKnown;
      QuietStep(b, Some(Flight(call, s)), action, Abort(b, s.reservation).0, None);
    }
  }

  lemma FinishingKnown(b: Books, call: Call, s: Stage, fails: bool, action: Action)
    requires (s.Summed? || s.Checked? || s.Flipped?) && AgentsKnown(b) && AgentKnown(b, Some(Flight(call, s)))
    requires action == Finish(fails)
    ensures var next := Finishing(b, call, s, fails); StepKnown(b, Some(Flight(call, s)), action, next.0, next.1)
  {
    var slot := Some(Flight(call, s));
    hide Abort, Resolve;
    RefusingSameAgents(b, call, s.reservation);
    if fails || (s.Checked? && Resolve(b, s.work, s.logId).None?) {
      QuietStep(b, slot, action, Abort(b, s.reservation).0, None);
    } else if s.Checked? {
      ResolvingKnown(b, s.work, s.logId);
      hide AgentsKnown, OpensAccount;
    }
  }

  lemma ResolvingKnown(b: Books, work: Work, logId: Id)
    requires AgentsKnown(b) && Resolve(b, work, logId).Some?
    ensures var b' := Resolve(b, work, logId).value;
            AgentsKnown(b') && b'.next >= b.next && (b'.ledger == b.ledger || OpensAccount(b, b'.ledger))
  {
    hide HasPlatform, Balance;
  }

  lemma SettlingKnown(b: Books, call: Call, s: Stage, fails: bool)
    requires s.Applied?
    ensures SameAgents(b, Settling(b, call, s, fails).0) && Settling(b, call, s, fails).1 == None
  {
    hide Estimate, RecordSpend;
    BookkeepingKeepsAgents(b, call, s.reservation, Released, s.logId, 0, 0);
  }

  lemma AdvanceKnown(b: Books, slot: Slot, action: Action)
    requires AgentsKnown(b) && AgentKnown(b, slot)
    ensures StepKnown(b, slot, action, Advance(b, slot, action).0, Advance(b, slot, action).1)
  {
    hide Entering, Authorizing, Working, Reading, Deleting, Logging, Acting, Finishing, Settling, AgentsKnown, StepKnown, LedgerMoves;
    var next := Advance(b, slot, action);
    SameAgentsMeansReflexive(b);
    match slot
    case None =>
      if action.Enter? { EnteringKnown(b, action.call, action.now, action.prune); }
      QuietStep(b, slot, action, next.0, next.1);
    case Some(Flight(call, s)) =>
      if s.Logged? && action.Act? {
        ActingKnown(b, call, s, action.fails, action);
      } else if (s.Summed? || s.Checked? || s.Flipped?) && action.Finish? {
        FinishingKnown(b, call, s, action.fails, action);
      } else {
        AuthorizingKnown(b, call);
        if s.Authorized? { WorkingKnown(b, call, s.reservation); }
        if action.Read? { ClaimingKnown(b, call, s, false); }
        if action.Claim? || action.Log? { ClaimingKnown(b, call, s, action.fails); }
        if s.Applied? && action.Settle? { SettlingKnown(b, call, s, action.fails); }
        QuietStep(b, slot, action, next.0, next.1);
      }
  }

  lemma SameAgentsMeansReflexive(b: Books)
    ensures SameAgents(b, b)
  {
  }

  // ---- How far a row's balance is off -------------------------------------------------------------------

  /** The balance is the latest row's balance_after, less what was rejected since, plus what its sum had missed. */
  ghost predicate Off(ledger: seq<LedgerRow>, agent: Id, since: int, skew: int) {
    Latest(ledger, agent).Some? ==>
      Balance(ledger, agent) == ledger[Latest(ledger, agent).value].balanceAfter - since + skew
  }

  /** What the sum of an award missed when its row is inserted; a row that opens an account misses nothing. */
  function SkewAfter(b: Books, slot: Slot, action: Action, ledger': seq<LedgerRow>, agent: Id, skew: int): int {
    if IsAward(slot, action) && slot.value.stage.proposer == agent then Balance(b.ledger, agent) - slot.value.stage.balance
    else if |ledger'| > |b.ledger| && ledger'[|ledger'| - 1].agent == agent then 0
    else skew
  }

  lemma AppendedOff(ledger: seq<LedgerRow>, row: LedgerRow, agent: Id, since: int, skew: int)
    requires Off(ledger, agent, since, skew) && row.status == Confirmed
    ensures row.agent == agent ==> Off(ledger + [row], agent, 0, Balance(ledger, agent) + row.delta - row.balanceAfter)
    ensures row.agent != agent ==> Off(ledger + [row], agent, since, skew)
  {
    assert (ledger + [row])[..|ledger|] == ledger;
  }

  lemma ReversedOff(ledger: seq<LedgerRow>, target: Id, agent: Id, since: int, skew: int)
    requires Off(ledger, agent, since, skew)
    ensures var ledger' := Reverse(ledger, target); Off(ledger', agent, since + NewlyReversed(ledger, ledger', agent), skew)
  {
    ReversalLowersBalance(ledger, target, ledger, agent);
    LatestSurvives(ledger, target, agent);
  }

  lemma LedgerMovesOff(b: Books, slot: Slot, action: Action, b': Books, agent: Id, since: int, skew: int)
    requires LedgerMoves(b, slot, action, b') && AgentsKnown(b) && Off(b.ledger, agent, since, skew)
    ensures |b.ledger| <= |b'.ledger|
    ensures Off(b'.ledger, agent, SinceAfter(b.ledger, b'.ledger, agent, since), SkewAfter(b, slot, action, b'.ledger, agent, skew))
  {
    hide Off, Reverse;
    ReversesInPlace(b, b');
    if IsAward(slot, action) {
      AppendedOff(b.ledger, AwardRow(slot.value.stage), agent, since, skew);
      NothingNewlyReversed(b.ledger, b'.ledger, agent);
    } else if b'.ledger == b.ledger {
      NothingNewlyReversed(b.ledger, b'.ledger, agent);
    } else if OpensAccount(b, b'.ledger) {
      var row := b'.ledger[|b.ledger|];
      assert b'.ledger == b.ledger + [row];
      StrangersHaveNothing(b.ledger, b.next);
      AppendedOff(b.ledger, row, agent, since, skew);
      NothingNewlyReversed(b.ledger, b'.ledger, agent);
    } else {
      var target :| b'.ledger == Reverse(b.ledger, target);
      ReversedOff(b.ledger, target, agent, since, skew);
    }
  }

  lemma ReversesInPlace(b: Books, b': Books)
    ensures (exists target :: b'.ledger == Reverse(b.ledger, target)) ==> |b'.ledger| == |b.ledger|
  {
  }

  // ---- All runs -----------------------------------------------------------------------------------------

  ghost predicate Known(f: Floor) {
    AgentsKnown(f.books) && forall i :: 0 <= i < |f.slots| ==> AgentKnown(f.books, f.slots[i])
  }

  lemma AdvancedKnown(b: Books, slot: Slot, action: Action, lost: bool)
    requires AgentsKnown(b) && AgentKnown(b, slot)
    ensures StepKnown(b, slot, action, Advanced(b, slot, action, lost).0, Advanced(b, slot, action, lost).1)
  {
    AdvanceKnown(b, slot, action);
    AdvancedIsAdvance(b, slot, action, lost);
    hide Advance, Advanced, OpensAccount, IsAward;
  }

  lemma StepStaysKnown(f: Floor, m: Move)
    requires Known(f)
    ensures Known(Step(f, m))
    ensures m.Turn? && m.slot < |f.slots| ==> LedgerMoves(f.books, f.slots[m.slot], m.action, Step(f, m).books)
    ensures !m.Turn? || m.slot >= |f.slots| ==> Step(f, m).books.ledger == f.books.ledger
  {
    var f' := Step(f, m);
    if m.Turn? && m.slot < |f.slots| {
      assert AgentKnown(f.books, f.slots[m.slot]);
      AdvancedKnown(f.books, f.slots[m.slot], m.action, m.lost);
      hide Advanced, AgentsKnown, LedgerMoves;
      forall i | 0 <= i < |f'.slots| ensures AgentKnown(f'.books, f'.slots[i]) {
        if i != m.slot {
          assert AgentKnown(f.books, f.slots[i]);
        }
      }
    } else {
      OthersStayKnown(f, m);
    }
  }

  lemma OthersStayKnown(f: Floor, m: Move)
    requires Known(f) && (!m.Turn? || m.slot >= |f.slots|)
    ensures Known(Step(f, m)) && Step(f, m).books.ledger == f.books.ledger
  {
    hide Step;
    var f' := Step(f, m);
    BesideTheRuns(f, m);
    forall i | 0 <= i < |f'.slots| ensures AgentKnown(f'.books, f'.slots[i]) {
      assert AgentKnown(f.books, f.slots[i]);
    }
  }

  /** The deltas of an agent's rows rejected since its latest row was inserted. */
  ghost function Since(f: Floor, moves: seq<Move>, agent: Id): int {
    if moves == [] then 0
    else
      var n := |moves| - 1;
      var ledger, ledger' := Replay(f, moves[..n]).books.ledger, Replay(f, moves).books.ledger;
      if |ledger| <= |ledger'| then SinceAfter(ledger, ledger', agent, Since(f, moves[..n], agent)) else 0
  }

  /** What the sum of an agent's latest award had missed when the row was inserted. */
  ghost function Skew(f: Floor, moves: seq<Move>, agent: Id): int {
    if moves == [] then 0
    else
      var n := |moves| - 1;
      var before, m := Replay(f, moves[..n]), moves[n];
      if m.Turn? && m.slot < |before.slots|
      then SkewAfter(before.books, before.slots[m.slot], m.action, Replay(f, moves).books.ledger, agent, Skew(f, moves[..n], agent))
      else Skew(f, moves[..n], agent)
  }

  lemma StepOff(f: Floor, m: Move, agent: Id, since: int, skew: int)
    requires Known(f) && Off(f.books.ledger, agent, since, skew)
    ensures var ledger, ledger' := f.books.ledger, Step(f, m).books.ledger;
            && |ledger| <= |ledger'|
            && Off(ledger', agent, SinceAfter(ledger, ledger', agent, since),
                   if m.Turn? && m.slot < |f.slots| then SkewAfter(f.books, f.slots[m.slot], m.action, ledger', agent, skew) else skew)
  {
    hide Step, Off, LedgerMoves, SkewAfter;
    StepStaysKnown(f, m);
    if m.Turn? && m.slot < |f.slots| {
      LedgerMovesOff(f.books, f.slots[m.slot], m.action, Step(f, m).books, agent, since, skew);
    } else {
      NothingNewlyReversed(f.books.ledger, f.books.ledger, agent);
    }
  }

  /** In every interleaving the balance is the latest row's balance_after less what was rejected since, plus what the sum
    * behind that row had missed. */
  lemma {:induction false} BalanceIsOffBySkew(f: Floor, moves: seq<Move>, agent: Id)
    requires Known(f) && f.books.ledger == []
    ensures Known(Replay(f, moves))
    ensures Off(Replay(f, moves).books.ledger, agent, Since(f, moves, agent), Skew(f, moves, agent))
  {
    hide Known, Step, SkewAfter, SinceAfter;
    if moves != [] {
      var n := |moves| - 1;
      BalanceIsOffBySkew(f, moves[..n], agent);
      hide Off;
      StepStaysKnown(Replay(f, moves[..n]), moves[n]);
      StepOff(Replay(f, moves[..n]), moves[n], agent, Since(f, moves[..n], agent), Skew(f, moves[..n], agent));
    }
  }

  /** Main result, balances: when runs interleave, an agent's balance is the balance_after of its latest row minus the deltas
    * rejected since exactly when the sum behind that row was still current as the row was inserted. */
  lemma RunningBalanceIff(f: Floor, moves: seq<Move>, agent: Id)
    requires Known(f) && f.books.ledger == []
    requires Latest(Replay(f, moves).books.ledger, agent).Some?
    ensures var ledger := Replay(f, moves).books.ledger;
            Balance(ledger, agent) == ledger[Latest(ledger, agent).value].balanceAfter - Since(f, moves, agent)
            <==> Skew(f, moves, agent) == 0
  {
    BalanceIsOffBySkew(f, moves, agent);
  }
}
