/** The money and token invariants of Engine.Run. */
module Accounting {
  import opened Common
  import opened Books
  import opened Sums
  import opened Engine

  // ---- The invariants ---------------------------------------------------------------------------

  /** The success row a ledger row points to. */
  ghost predicate Backs(log: LogRow, row: LedgerRow) {
    && log.id == row.logId && log.result == Success
    && (row.source == Passage ==> log.tool == ApproveDraft && log.tokens == row.delta)
    && (row.source == EntryFee ==> log.tool == ApproveAccess)
  }

  ghost predicate IsBacked(logs: seq<LogRow>, row: LedgerRow) {
    exists k: nat :: k < |logs| && Backs(logs[k], row)
  }

  ghost predicate HasPassage(ledger: seq<LedgerRow>, logId: Id) {
    exists i: nat :: i < |ledger| && ledger[i].logId == logId && ledger[i].source == Passage
  }

  ghost predicate IsAward(log: LogRow) {
    log.result == Success && log.tool == ApproveDraft
  }

  /** Ledger and audit log correspond: each ledger row has its success row, and each successful approval outside
    * `orphans` (the runs that failed in Step 6) has its passage row. */
  ghost predicate Corresponds(logs: seq<LogRow>, ledger: seq<LedgerRow>, next: Id, orphans: set<Id>) {
    && LogsOrdered(logs, next) && LedgerOrdered(ledger, next)
    && (forall i: nat :: i < |ledger| ==> IsBacked(logs, ledger[i]))
    && (forall id :: id in orphans ==> id < next && !HasLogId(ledger, id))
    && (forall k: nat :: k < |logs| && IsAward(logs[k]) && logs[k].id !in orphans ==> HasPassage(ledger, logs[k].id))
  }

  /** Confirmed balances are the un-rejected approvals minus the un-rejected entry fees. */
  ghost predicate TokensConserved(logs: seq<LogRow>, ledger: seq<LedgerRow>, orphans: set<Id>) {
    Sum(ledger, DeltaOf) == Total(logs, AwardOf, ReversedIds(ledger) + orphans) - Sum(ledger, FeeOf)
  }

  ghost predicate CostsNonNegative(logs: seq<LogRow>) {
    forall k :: 0 <= k < |logs| ==> CostOf(logs[k]) >= 0
  }

  /** The counter holds the cost of every success row that is neither reversed nor orphaned. */
  ghost predicate SpendMatches(c: Option<Counter>, logs: seq<LogRow>, ledger: seq<LedgerRow>, orphans: set<Id>) {
    c.Some? && c.value.spent == Total(logs, CostOf, ReversedIds(ledger) + orphans)
  }

  // ---- One row at a time ------------------------------------------------------------------------

  lemma BackedStays(logs: seq<LogRow>, row: LogRow, entry: LedgerRow)
    requires IsBacked(logs, entry)
    ensures IsBacked(logs + [row], entry)
  {
    var k: nat :| k < |logs| && Backs(logs[k], entry);
    assert (logs + [row])[k] == logs[k];
  }

  /** A new log row, whatever it says, starts out as an orphan. */
  lemma LogAppended(logs: seq<LogRow>, ledger: seq<LedgerRow>, next: Id, orphans: set<Id>, missed: set<Id>, row: LogRow)
    requires Corresponds(logs, ledger, next, orphans) && row.id == next
    ensures Corresponds(logs + [row], ledger, next + 1, orphans + {row.id})
    ensures !IsAward(row) ==> Corresponds(logs + [row], ledger, next + 1, orphans)
    ensures TokensConserved(logs, ledger, orphans) ==> TokensConserved(logs + [row], ledger, orphans + {row.id})
    ensures forall c :: SpendMatches(c, logs, ledger, missed) ==> SpendMatches(c, logs + [row], ledger, missed + {row.id})
  {
    forall i: nat | i < |ledger| ensures IsBacked(logs + [row], ledger[i]) {
      BackedStays(logs, row, ledger[i]);
    }
    AppendedIsDropped(logs, next, row, AwardOf, ReversedIds(ledger), orphans);
    AppendedIsDropped(logs, next, row, CostOf, ReversedIds(ledger), missed);
  }

  lemma AppendedIsDropped(logs: seq<LogRow>, next: Id, row: LogRow, w: LogRow -> int, reversed: set<Id>, orphans: set<Id>)
    requires LogsOrdered(logs, next) && row.id == next
    ensures Total(logs + [row], w, reversed + (orphans + {row.id})) == Total(logs, w, reversed + orphans)
  {
    assert reversed + (orphans + {row.id}) == (reversed + orphans) + {row.id};
    TotalAppend(logs, row, w, reversed + orphans + {row.id});
    TotalDropsUnknown(logs, w, reversed + orphans, row.id);
  }

  /** Taking the last row out of the orphans adds its weight. */
  lemma Adopted(logs: seq<LogRow>, next: Id, w: LogRow -> int, reversed: set<Id>, orphans: set<Id>)
    requires LogsOrdered(logs, next) && logs != []
    requires var id := logs[|logs| - 1].id; id !in reversed && id !in orphans
    ensures var last := logs[|logs| - 1];
            Total(logs, w, reversed + orphans) == Total(logs, w, reversed + (orphans + {last.id})) + w(last)
  {
    var last := logs[|logs| - 1];
    assert reversed + (orphans + {last.id}) == (reversed + orphans) + {last.id};
    TotalDrops(logs, next, w, reversed + orphans, |logs| - 1);
  }

  lemma LedgerPrecedesOrphan(logs: seq<LogRow>, ledger: seq<LedgerRow>, next: Id, orphans: set<Id>)
    requires Corresponds(logs, ledger, next, orphans) && logs != [] && logs[|logs| - 1].id in orphans
    ensures forall i :: 0 <= i < |ledger| ==> ledger[i].logId < logs[|logs| - 1].id
  {
    forall i: nat | i < |ledger| ensures ledger[i].logId < logs[|logs| - 1].id {
      assert IsBacked(logs, ledger[i]);
      var k: nat :| k < |logs| && Backs(logs[k], ledger[i]);
      assert HasLogId(ledger, ledger[i].logId);
    }
  }

  /** A row for the last log keeps the correspondence and takes that log out of the orphans. */
  lemma RowPosted(logs: seq<LogRow>, ledger: seq<LedgerRow>, next: Id, orphans: set<Id>, entry: LedgerRow)
    requires logs != [] && entry.logId == logs[|logs| - 1].id && entry.logId !in orphans
    requires Corresponds(logs, ledger, next, orphans + {entry.logId})
    requires Backs(logs[|logs| - 1], entry) && entry.status == Confirmed
    ensures Corresponds(logs, ledger + [entry], next, orphans)
  {
    var last := logs[|logs| - 1];
    var ledger' := ledger + [entry];
    LedgerPrecedesOrphan(logs, ledger, next, orphans + {entry.logId});
    forall i: nat | i < |ledger'| ensures IsBacked(logs, ledger'[i]) {
      assert i < |ledger| ==> IsBacked(logs, ledger[i]);
      assert Backs(logs[|logs| - 1], entry);
    }
    forall id | id in orphans ensures !HasLogId(ledger', id) {
      assert !HasLogId(ledger, id);
    }
    forall k: nat | k < |logs| && IsAward(logs[k]) && logs[k].id !in orphans
      ensures HasPassage(ledger', logs[k].id)
    {
      if k < |logs| - 1 {
        assert HasPassage(ledger, logs[k].id);
        var i: nat :| i < |ledger| && ledger[i].logId == logs[k].id && ledger[i].source == Passage;
        assert ledger'[i] == ledger[i];
      } else {
        assert ledger'[|ledger|] == entry;
      }
    }
  }

  lemma NotReversed(ledger: seq<LedgerRow>, logId: Id)
    requires !HasLogId(ledger, logId)
    ensures logId !in ReversedIds(ledger)
  {
  }

  lemma TokensAfterRow(logs: seq<LogRow>, ledger: seq<LedgerRow>, next: Id, orphans: set<Id>, entry: LedgerRow)
    requires logs != [] && entry.logId == logs[|logs| - 1].id && entry.logId !in orphans && LogsOrdered(logs, next)
    requires !HasLogId(ledger, entry.logId) && entry.status == Confirmed
    requires entry.delta == AwardOf(logs[|logs| - 1]) - FeeOf(entry)
    requires TokensConserved(logs, ledger, orphans + {entry.logId})
    ensures TokensConserved(logs, ledger + [entry], orphans)
  {
    ReversedIdsAppend(ledger, entry);
    SumAppend(ledger, entry, DeltaOf);
    SumAppend(ledger, entry, FeeOf);
    NotReversed(ledger, entry.logId);
    Adopted(logs, next, AwardOf, ReversedIds(ledger), orphans);
  }

  /** An award or fee row for the last log: the correspondence, the spend's view and the token balance. */
  lemma EntryPosted(logs: seq<LogRow>, ledger: seq<LedgerRow>, next: Id, orphans: set<Id>, entry: LedgerRow)
    requires logs != [] && entry.logId == logs[|logs| - 1].id && entry.logId !in orphans
    requires Corresponds(logs, ledger, next, orphans + {entry.logId})
    requires Backs(logs[|logs| - 1], entry) && entry.status == Confirmed
    requires entry.delta == AwardOf(logs[|logs| - 1]) - FeeOf(entry)
    ensures Corresponds(logs, ledger + [entry], next, orphans)
    ensures ReversedIds(ledger + [entry]) == ReversedIds(ledger)
    ensures TokensConserved(logs, ledger, orphans + {entry.logId}) ==> TokensConserved(logs, ledger + [entry], orphans)
  {
    RowPosted(logs, ledger, next, orphans, entry);
    ReversedIdsAppend(ledger, entry);
    assert entry.logId in orphans + {entry.logId};
    if TokensConserved(logs, ledger, orphans + {entry.logId}) {
      TokensAfterRow(logs, ledger, next, orphans, entry);
    }
  }

  /** The log behind a confirmed ledger row. */
  lemma ConfirmedRow(logs: seq<LogRow>, ledger: seq<LedgerRow>, next: Id, orphans: set<Id>, target: Id)
    returns (i: nat, k: nat)
    requires Corresponds(logs, ledger, next, orphans) && IsConfirmed(ledger, target)
    ensures i < |ledger| && ledger[i].logId == target && ledger[i].status == Confirmed
    ensures k < |logs| && Backs(logs[k], ledger[i]) && CostOf(logs[k]) == CostOfLog(logs, target)
    ensures target !in ReversedIds(ledger) && target !in orphans
  {
    i :| 0 <= i < |ledger| && ledger[i].logId == target && ledger[i].status == Confirmed;
    assert IsBacked(logs, ledger[i]);
    k :| 0 <= k < |logs| && Backs(logs[k], ledger[i]);
    LookupFinds(logs, next, k);
    assert HasLogId(ledger, target);
  }

  lemma ReversalCorresponds(logs: seq<LogRow>, ledger: seq<LedgerRow>, next: Id, orphans: set<Id>, target: Id)
    requires Corresponds(logs, ledger, next, orphans)
    ensures Corresponds(logs, Reverse(ledger, target), next, orphans)
  {
    var ledger' := Reverse(ledger, target);
    forall i: nat | i < |ledger'| ensures IsBacked(logs, ledger'[i]) {
      assert IsBacked(logs, ledger[i]);
      var k: nat :| k < |logs| && Backs(logs[k], ledger[i]);
      assert Backs(logs[k], ledger'[i]);
    }
    forall id | id in orphans ensures !HasLogId(ledger', id) {
      assert !HasLogId(ledger, id);
    }
    forall k: nat | k < |logs| && IsAward(logs[k]) && logs[k].id !in orphans
      ensures HasPassage(ledger', logs[k].id)
    {
      assert HasPassage(ledger, logs[k].id);
      var i: nat :| i < |ledger| && ledger[i].logId == logs[k].id && ledger[i].source == Passage;
      assert ledger'[i].logId == logs[k].id && ledger'[i].source == Passage;
    }
  }

  /** A reversal takes the row's delta out of the balances and its award out of the approvals. */
  lemma ReversalPosted(logs: seq<LogRow>, ledger: seq<LedgerRow>, next: Id, orphans: set<Id>, target: Id)
    requires Corresponds(logs, ledger, next, orphans) && IsConfirmed(ledger, target)
    ensures var ledger' := Post(ledger, Reversal(target));
            && Corresponds(logs, ledger', next, orphans)
            && (TokensConserved(logs, ledger, orphans) ==> TokensConserved(logs, ledger', orphans))
  {
    var i, k := ConfirmedRow(logs, ledger, next, orphans, target);
    var reversed := ReversedIds(ledger);
    ReversalCorresponds(logs, ledger, next, orphans, target);
    ReversedIdsReverse(ledger, target);
    SumReverses(ledger, next, DeltaOf, i);
    SumReverses(ledger, next, FeeOf, i);
    assert reversed + {target} + orphans == reversed + orphans + {target};
    TotalDrops(logs, next, AwardOf, reversed + orphans, k);
  }

  /** A reversal takes the row's cost out of the rebuilt spend, whichever logs the counter missed. */
  lemma ReversalCosts(logs: seq<LogRow>, ledger: seq<LedgerRow>, next: Id, orphans: set<Id>, missed: set<Id>, target: Id)
    requires Corresponds(logs, ledger, next, orphans) && IsConfirmed(ledger, target) && missed <= orphans
    ensures ReversedIds(Reverse(ledger, target)) == ReversedIds(ledger) + {target}
    ensures Total(logs, CostOf, ReversedIds(ledger) + {target} + missed)
         == Total(logs, CostOf, ReversedIds(ledger) + missed) - CostOfLog(logs, target)
    ensures CostsNonNegative(logs) ==>
              0 <= CostOfLog(logs, target) <= Total(logs, CostOf, ReversedIds(ledger) + missed)
  {
    var i, k := ConfirmedRow(logs, ledger, next, orphans, target);
    var reversed := ReversedIds(ledger);
    ReversedIdsReverse(ledger, target);
    assert reversed + {target} + missed == reversed + missed + {target};
    TotalDrops(logs, next, CostOf, reversed + missed, k);
    if CostsNonNegative(logs) {
      TotalCoversEach(logs, CostOf, reversed + missed);
    }
  }

  // ---- The steps of Run -------------------------------------------------------------------------

  ghost predicate Kept(b: Books, orphans: set<Id>) {
    Corresponds(b.logs, b.ledger, b.next, orphans)
  }

  ghost predicate Conserved(b: Books, orphans: set<Id>) {
    Kept(b, orphans) && TokensConserved(b.logs, b.ledger, orphans)
  }

  /** The counter agrees with the log but for the orphans it missed: those since the last rebuild. */
  ghost predicate Matched(b: Books, orphans: set<Id>, missed: set<Id>) {
    && Kept(b, orphans) && CostsNonNegative(b.logs) && missed <= orphans
    && SpendMatches(b.counter, b.logs, b.ledger, missed)
  }

  /** Steps 1.5 to 4 and reservations leave logs, ledger and counter alone. */
  ghost predicate SameMoney(b: Books, b': Books) {
    b'.logs == b.logs && b'.ledger == b.ledger && b'.counter == b.counter && b'.next >= b.next
  }

  lemma SameMoneyKeeps(b: Books, b': Books, orphans: set<Id>)
    requires SameMoney(b, b')
    ensures Kept(b, orphans) ==> Kept(b', orphans)
    ensures Conserved(b, orphans) ==> Conserved(b', orphans)
    ensures forall missed :: Matched(b, orphans, missed) ==> Matched(b', orphans, missed)
  {
    if Kept(b, orphans) {
      forall i: nat | i < |b'.ledger| ensures IsBacked(b'.logs, b'.ledger[i]) {
        assert IsBacked(b.logs, b.ledger[i]);
      }
    }
  }

  /** The work of Step 3 belongs to the call. */
  ghost predicate WorkFits(b: Books, call: Call, work: Work) {
    match work
    case Nothing => call.CallOther?
    case Drafted(_) => call.CallPropose?
    case Claimed(_, _, _, _) => call.CallApprove?
    case ToReverse(target, cost) => call.CallReject? && target == call.logId && IsConfirmed(b.ledger, target) && cost == CostOfLog(b.logs, target)
    case ToApprove(request) => call.CallApproveAccess? && request == call.request
    case ToReject(request) => call.CallRejectAccess? && request == call.request
  }

  /** The cost the engine logs for a call. */
  function LoggedCost(call: Call): int {
    if call.CallOther? && call.effects.cost != 0 then call.effects.cost
    else if Estimate(call) > 0 then Estimate(call) else 0
  }

  lemma LookupSkipsNew(logs: seq<LogRow>, row: LogRow, id: Id)
    requires row.id != id
    ensures CostOfLog(logs + [row], id) == CostOfLog(logs, id)
  {
    assert (logs + [row])[..|logs|] == logs;
  }

  lemma CorrespondsLater(logs: seq<LogRow>, ledger: seq<LedgerRow>, next: Id, orphans: set<Id>)
    requires Corresponds(logs, ledger, next, orphans)
    ensures Corresponds(logs, ledger, next + 1, orphans)
  {
  }

  /** A log that is no award leaves the orphans freely. */
  lemma NonAwardAdopted(logs: seq<LogRow>, ledger: seq<LedgerRow>, next: Id, orphans: set<Id>)
    requires logs != [] && !IsAward(logs[|logs| - 1]) && logs[|logs| - 1].id !in orphans
    requires Corresponds(logs, ledger, next, orphans + {logs[|logs| - 1].id})
    ensures Corresponds(logs, ledger, next, orphans)
    ensures TokensConserved(logs, ledger, orphans + {logs[|logs| - 1].id}) ==> TokensConserved(logs, ledger, orphans)
  {
    var last := logs[|logs| - 1];
    assert last.id in orphans + {last.id};
    NotReversed(ledger, last.id);
    Adopted(logs, next, AwardOf, ReversedIds(ledger), orphans);
    forall k: nat | k < |logs| && IsAward(logs[k]) && logs[k].id !in orphans
      ensures HasPassage(ledger, logs[k].id)
    {
      assert logs[k].id !in orphans + {last.id};
    }
  }

  /** Between Step 5 and Step 6: the new success row counts as an orphan. */
  ghost predicate JustLogged(b: Books, call: Call, tokens: int, logId: Id, orphans: set<Id>) {
    && b.logs != [] && logId !in orphans && Kept(b, orphans + {logId})
    && var last := b.logs[|b.logs| - 1];
       last.id == logId && last.result == Success && last.tool == ToolOf(call) && last.tokens == tokens
  }

  lemma StepFive(b: Books, call: Call, tokens: int, cost: int, orphans: set<Id>)
    requires Kept(b, orphans)
    ensures var logged := AppendLog(b, call, Success, tokens, cost);
            && JustLogged(logged, call, tokens, b.next, orphans)
            && (Conserved(b, orphans) ==> Conserved(logged, orphans + {b.next}))
  {
    var logged := AppendLog(b, call, Success, tokens, cost);
    LogAppended(b.logs, b.ledger, b.next, orphans, orphans, logged.logs[|b.logs|]);
  }

  lemma ClaimedKeeps(b: Books, call: Call, work: Work, tokens: int, logId: Id, orphans: set<Id>)
    requires JustLogged(b, call, tokens, logId, orphans) && call.CallApprove? && work.Claimed?
    ensures var b' := Apply(b, call, work, tokens, logId, NoFault).0;
            Kept(b', orphans) && (Conserved(b, orphans + {logId}) ==> Conserved(b', orphans))
  {
    hide Corresponds, TokensConserved, Balance;
    EntryPosted(b.logs, b.ledger, b.next, orphans,
                LedgerRow(work.proposer, tokens, Balance(b.ledger, work.proposer) + tokens, Passage, work.draft, logId, Confirmed));
  }

  lemma ReversalKeeps(b: Books, call: Call, tokens: int, logId: Id, orphans: set<Id>, target: Id)
    requires JustLogged(b, call, tokens, logId, orphans) && call.CallReject? && IsConfirmed(b.ledger, target)
    ensures var b' := b.(ledger := Reverse(b.ledger, target));
            && Kept(b', orphans) && Kept(b', orphans + {logId})
            && (Conserved(b, orphans + {logId}) ==> Conserved(b', orphans) && Conserved(b', orphans + {logId}))
  {
    ReversalPosted(b.logs, b.ledger, b.next, orphans + {logId}, target);
    NonAwardAdopted(b.logs, Reverse(b.ledger, target), b.next, orphans);
  }

  lemma NothingPostedKeeps(b: Books, call: Call, tokens: int, logId: Id, orphans: set<Id>)
    requires JustLogged(b, call, tokens, logId, orphans) && !call.CallApprove?
    ensures Kept(b, orphans) && (Conserved(b, orphans + {logId}) ==> Conserved(b, orphans))
  {
    NonAwardAdopted(b.logs, b.ledger, b.next, orphans);
  }

  /** The money an approval moves: at most one fee row. */
  lemma FeeKeeps(b: Books, b': Books, call: Call, tokens: int, logId: Id, orphans: set<Id>, fee: int, request: Id)
    requires JustLogged(b, call, tokens, logId, orphans) && call.CallApproveAccess?
    requires b'.logs == b.logs && b'.next == b.next + 1
    requires b'.ledger == if fee > 0 then Post(b.ledger, Fee(b.next, fee, request, logId)) else b.ledger
    ensures Kept(b', orphans) && (Conserved(b, orphans + {logId}) ==> Conserved(b', orphans))
  {
    hide Corresponds, TokensConserved;
    if fee > 0 {
      EntryPosted(b.logs, b.ledger, b.next, orphans,
                  LedgerRow(b.next, -fee, -fee, EntryFee, request, logId, Confirmed));
    } else {
      NonAwardAdopted(b.logs, b.ledger, b.next, orphans);
    }
    CorrespondsLater(b.logs, b'.ledger, b.next, orphans);
  }

  /** Step 6, successful or not, for the correspondence and the tokens. */
  lemma StepSix(b: Books, call: Call, work: Work, tokens: int, logId: Id, fault: Fault, orphans: set<Id>)
    requires JustLogged(b, call, tokens, logId, orphans) && WorkFits(b, call, work)
    ensures var (b', ok) := Apply(b, call, work, tokens, logId, fault);
            var orphans' := if ok then orphans else orphans + {logId};
            Kept(b', orphans') && (Conserved(b, orphans + {logId}) ==> Conserved(b', orphans'))
  {
    if fault != ApplyFails {
      match work
      case Claimed(_, _, _, _) => ClaimedKeeps(b, call, work, tokens, logId, orphans);
      case ToReverse(target, _) => ReversalKeeps(b, call, tokens, logId, orphans, target);
      case ToApprove(request) =>
        if ApproveRequest(b, request, logId).Some? {
          FeeKeeps(b, ApproveRequest(b, request, logId).value, call, tokens, logId, orphans,
                   b.tiers[b.requests[request].tier].entryFee, request);
        }
      case _ => NothingPostedKeeps(b, call, tokens, logId, orphans);
    }
  }

  // ---- Whole runs -------------------------------------------------------------------------------

  /** The orphans after a run: its own log joins them when it failed in Step 6. */
  function OrphansAfter(orphans: set<Id>, outcome: Outcome): set<Id> {
    if outcome.Aborted? then orphans + {outcome.logId} else orphans
  }

  /** A refusal row carries no award and no cost. */
  lemma RefusalKeeps(b: Books, call: Call, orphans: set<Id>)
    requires Kept(b, orphans)
    ensures Kept(LogRefusal(b, call), orphans)
    ensures Conserved(b, orphans) ==> Conserved(LogRefusal(b, call), orphans)
    ensures forall missed :: Matched(b, orphans, missed) ==> Matched(LogRefusal(b, call), orphans, missed)
  {
    var logged := LogRefusal(b, call);
    var row := logged.logs[|b.logs|];
    LogAppended(b.logs, b.ledger, b.next, orphans, orphans, row);
    TotalAppend(b.logs, row, AwardOf, ReversedIds(b.ledger) + orphans);
    forall missed | Matched(b, orphans, missed) ensures Matched(logged, orphans, missed) {
      TotalAppend(b.logs, row, CostOf, ReversedIds(b.ledger) + missed);
    }
  }

  lemma ExecuteFits(b: Books, call: Call)
    requires Permitted(b, call) && Execute(b, call).Some?
    ensures SameMoney(b, Execute(b, call).value.0)
    ensures WorkFits(Execute(b, call).value.0, call, Execute(b, call).value.1)
  {
  }

  lemma ReservationKeepsMoney(b: Books, reservation: Option<Id>, status: ReservationStatus)
    ensures SameMoney(b, SetReservation(b, reservation, status))
  {
  }

  lemma GatesKeepMoney(b: Books, call: Call, now: int, prune: bool, gated: Books)
    requires gated == Gate(b, call, now, prune).0
    ensures SameMoney(b, gated)
    ensures Reserve(gated, Estimate(call)).Some? ==>
              var reserved := Reserve(gated, Estimate(call)).value.0;
              SameMoney(gated, reserved) && (Permitted(gated, call) ==> Permitted(reserved, call))
  {
  }

  lemma CommitKeepsTokens(b: Books, call: Call, work: Work, effects: Effects, reservation: Option<Id>, fault: Fault, orphans: set<Id>)
    requires Kept(b, orphans) && WorkFits(b, call, work)
    ensures var (b', outcome) := Commit(b, call, work, effects, reservation, fault);
            var orphans' := OrphansAfter(orphans, outcome);
            Kept(b', orphans') && (Conserved(b, orphans) ==> Conserved(b', orphans'))
  {
    hide Apply, Kept, Conserved, JustLogged, AppendLog;
    var logged := AppendLog(b, call, Success, effects.tokens, effects.cost);
    StepFive(b, call, effects.tokens, effects.cost, orphans);
    WorkFitsLogged(b, call, work, effects, orphans);
    StepSix(logged, call, work, effects.tokens, b.next, fault, orphans);
    var (applied, ok) := Apply(logged, call, work, effects.tokens, b.next, fault);
    ReservationsAside(applied, Commit(b, call, work, effects, reservation, fault).0, OrphansAfter(orphans, Commit(b, call, work, effects, reservation, fault).1));
  }

  lemma WorkFitsLogged(b: Books, call: Call, work: Work, effects: Effects, orphans: set<Id>)
    requires WorkFits(b, call, work) && Kept(b, orphans)
    ensures WorkFits(AppendLog(b, call, Success, effects.tokens, effects.cost), call, work)
  {
    if work.ToReverse? {
      var i, k := ConfirmedRow(b.logs, b.ledger, b.next, orphans, work.logId);
      LookupSkipsNew(b.logs, AppendLog(b, call, Success, effects.tokens, effects.cost).logs[|b.logs|], work.logId);
    }
  }

  /** Neither reservations nor the counter matter to the correspondence and the tokens. */
  lemma ReservationsAside(b: Books, b': Books, orphans: set<Id>)
    requires b'.logs == b.logs && b'.ledger == b.ledger && b'.next == b.next
    ensures Kept(b, orphans) ==> Kept(b', orphans)
    ensures Conserved(b, orphans) ==> Conserved(b', orphans)
  {
  }

  lemma PerformKeepsTokens(b: Books, call: Call, reservation: Option<Id>, fault: Fault, orphans: set<Id>)
    requires Kept(b, orphans) && Permitted(b, call)
    ensures var (b', outcome) := Perform(b, call, reservation, fault);
            var orphans' := OrphansAfter(orphans, outcome);
            Kept(b', orphans') && (Conserved(b, orphans) ==> Conserved(b', orphans'))
  {
    hide Commit, Kept, Conserved, FinalEffects, LogRefusal, Execute, Permitted, SetReservation, WorkFits;
    var released := SetReservation(b, reservation, Released);
    ReservationKeepsMoney(b, reservation, Released);
    SameMoneyKeeps(b, released, orphans);
    RefusalKeeps(released, call, orphans);
    if Execute(b, call).Some? {
      var (executed, work) := Execute(b, call).value;
      ExecuteFits(b, call);
      SameMoneyKeeps(b, executed, orphans);
      var undone := SetReservation(executed, reservation, Released);
      ReservationKeepsMoney(executed, reservation, Released);
      SameMoneyKeeps(executed, undone, orphans);
      RefusalKeeps(undone, call, orphans);
      CommitKeepsTokens(executed, call, work, FinalEffects(executed, call, work), reservation, fault, orphans);
    }
  }

  /** Main result, tokens: every run, however it ends, keeps ledger and audit log in correspondence and the confirmed
    * balances equal to the un-rejected approvals minus the un-rejected entry fees. */
  lemma RunConservesTokens(b: Books, call: Call, now: int, prune: bool, fault: Fault, orphans: set<Id>)
    requires Kept(b, orphans)
    ensures var (b', outcome) := Run(b, call, now, prune, fault);
            var orphans' := OrphansAfter(orphans, outcome);
            Kept(b', orphans') && (Conserved(b, orphans) ==> Conserved(b', orphans'))
  {
    hide Perform, Kept, Conserved, LogRefusal, Gate, Reserve, Estimate;
    var (gated, ok) := Gate(b, call, now, prune);
    GatesKeepMoney(b, call, now, prune, gated);
    SameMoneyKeeps(b, gated, orphans);
    RefusalKeeps(gated, call, orphans);
    if Permitted(gated, call) && Reserve(gated, Estimate(call)).Some? {
      var (reserved, reservation) := Reserve(gated, Estimate(call)).value;
      SameMoneyKeeps(gated, reserved, orphans);
      PerformKeepsTokens(reserved, call, reservation, fault, orphans);
    }
  }

  // ---- The live counter -------------------------------------------------------------------------

  /** Only a reversal touches the counter or the set of reversed rows in Step 6. */
  lemma OthersSpendNothing(b: Books, call: Call, work: Work, tokens: int, logId: Id, fault: Fault)
    requires !work.ToReverse? || fault == ApplyFails
    ensures var b' := Apply(b, call, work, tokens, logId, fault).0;
            b'.counter == b.counter && b'.logs == b.logs && ReversedIds(b'.ledger) == ReversedIds(b.ledger)
  {
    hide ReversedIds, HasPlatform, Balance;
    if fault != ApplyFails {
      match work
      case Claimed(draft, proposer, _, _) =>
        ReversedIdsAppend(b.ledger, LedgerRow(proposer, tokens, Balance(b.ledger, proposer) + tokens, Passage, draft, logId, Confirmed));
      case ToApprove(request) =>
        if ApproveRequest(b, request, logId).Some? {
          var fee := b.tiers[b.requests[request].tier].entryFee;
          ReversedIdsAppend(b.ledger, LedgerRow(b.next, -fee, -fee, EntryFee, request, logId, Confirmed));
        }
      case _ =>
    }
  }

  /** The refund of reject_draft is covered by what was spent, so its clamp at zero never bites. */
  lemma ReversalSpends(b: Books, call: Call, work: Work, tokens: int, logId: Id, orphans: set<Id>, missed: set<Id>)
    requires Matched(b, orphans, missed) && work.ToReverse? && WorkFits(b, call, work)
    ensures var b' := Apply(b, call, work, tokens, logId, NoFault).0;
            && b'.logs == b.logs && SpendMatches(b'.counter, b.logs, b'.ledger, missed)
            && work.cost <= b.counter.value.spent && b'.counter.value.spent == b.counter.value.spent - work.cost
            && ReversedIds(b'.ledger) == ReversedIds(b.ledger) + {work.logId}
  {
    ReversalCosts(b.logs, b.ledger, b.next, orphans, missed, work.logId);
  }

  /** The faults that leave no half-done settlement: none, a failed audit insert, a failed first statement of Step 6. */
  predicate SettlesOrNot(fault: Fault) {
    fault == NoFault || fault == LogFails || fault == ApplyFails
  }

  lemma StepSixSpends(b: Books, call: Call, work: Work, tokens: int, logId: Id, fault: Fault, orphans: set<Id>, missed: set<Id>)
    requires Matched(b, orphans, missed) && WorkFits(b, call, work) && SettlesOrNot(fault)
    requires !HasLogId(b.ledger, logId)
    ensures var b' := Apply(b, call, work, tokens, logId, fault).0;
            && b'.logs == b.logs && SpendMatches(b'.counter, b.logs, b'.ledger, missed)
            && logId !in ReversedIds(b'.ledger)
  {
    NotReversed(b.ledger, logId);
    if work.ToReverse? && fault != ApplyFails {
      ReversalSpends(b, call, work, tokens, logId, orphans, missed);
      ReversalTarget(b, call, work, logId);
      assert Apply(b, call, work, tokens, logId, fault) == Apply(b, call, work, tokens, logId, NoFault);
    } else {
      OthersSpendNothing(b, call, work, tokens, logId, fault);
    }
  }

  lemma ReversalTarget(b: Books, call: Call, work: Work, logId: Id)
    requires work.ToReverse? && WorkFits(b, call, work) && !HasLogId(b.ledger, logId)
    ensures work.logId != logId
  {
  }

  /** Step 7 charges exactly the cost the success row carries. */
  lemma StepSeven(b: Books, call: Call, logId: Id, reservation: Option<Id>, missed: set<Id>)
    requires b.logs != [] && LogsOrdered(b.logs, b.next) && b.logs[|b.logs| - 1].id == logId
    requires logId !in missed && logId !in ReversedIds(b.ledger)
    requires CostOf(b.logs[|b.logs| - 1]) == if Estimate(call) > 0 then Estimate(call) else 0
    requires SpendMatches(b.counter, b.logs, b.ledger, missed + {logId})
    ensures var b' := RecordSpend(b, Estimate(call), reservation, logId);
            b'.logs == b.logs && b'.ledger == b.ledger && SpendMatches(b'.counter, b.logs, b.ledger, missed)
  {
    Adopted(b.logs, b.next, CostOf, ReversedIds(b.ledger), missed);
  }

  lemma StepFiveSpends(b: Books, call: Call, tokens: int, cost: int, orphans: set<Id>, missed: set<Id>)
    requires Matched(b, orphans, missed) && cost >= 0
    ensures var logged := AppendLog(b, call, Success, tokens, cost);
            && Matched(logged, orphans + {b.next}, missed + {b.next}) && LogsOrdered(logged.logs, logged.next)
            && !HasLogId(b.ledger, b.next) && b.next !in orphans
  {
    var logged := AppendLog(b, call, Success, tokens, cost);
    LogAppended(b.logs, b.ledger, b.next, orphans, missed, logged.logs[|b.logs|]);
  }

  lemma AppliedKeepsLogs(b: Books, call: Call, work: Work, tokens: int, logId: Id, fault: Fault)
    requires LogsOrdered(b.logs, b.next)
    ensures var b' := Apply(b, call, work, tokens, logId, fault).0;
            b'.logs == b.logs && LogsOrdered(b'.logs, b'.next)
  {
    hide HasPlatform, Post;
  }

  lemma CommitKeepsSpend(b: Books, call: Call, work: Work, effects: Effects, reservation: Option<Id>, fault: Fault,
                         orphans: set<Id>, missed: set<Id>)
    requires Matched(b, orphans, missed) && WorkFits(b, call, work) && SettlesOrNot(fault)
    requires effects.cost == if Estimate(call) > 0 then Estimate(call) else 0
    ensures var (b', outcome) := Commit(b, call, work, effects, reservation, fault);
            Matched(b', OrphansAfter(orphans, outcome), OrphansAfter(missed, outcome))
  {
    var id := b.next;
    var logged := AppendLog(b, call, Success, effects.tokens, effects.cost);
    var (b', outcome) := Commit(b, call, work, effects, reservation, fault);
    assert Kept(b', OrphansAfter(orphans, outcome)) by {
      CommitKeepsTokens(b, call, work, effects, reservation, fault, orphans);
    }
    StepFiveSpends(b, call, effects.tokens, effects.cost, orphans, missed);
    hide Kept, Apply;
    WorkFitsLogged(b, call, work, effects, orphans);
    StepSixSpends(logged, call, work, effects.tokens, id, fault, orphans + {id}, missed + {id});
    AppliedKeepsLogs(logged, call, work, effects.tokens, id, fault);
    var (applied, ok) := Apply(logged, call, work, effects.tokens, id, fault);
    if ok {
      StepSeven(applied, call, id, reservation, missed);
    }
  }

  lemma EffectsCostEstimate(b: Books, call: Call, work: Work)
    requires LeavesCostToEngine(call)
    ensures FinalEffects(b, call, work).cost == if Estimate(call) > 0 then Estimate(call) else 0
  {
  }

  lemma MatchedIsKept(b: Books, orphans: set<Id>, missed: set<Id>)
    requires Matched(b, orphans, missed)
    ensures Kept(b, orphans)
  {
  }

  lemma PerformKeepsSpend(b: Books, call: Call, reservation: Option<Id>, fault: Fault, orphans: set<Id>, missed: set<Id>)
    requires Matched(b, orphans, missed) && Permitted(b, call) && LeavesCostToEngine(call) && SettlesOrNot(fault)
    ensures var (b', outcome) := Perform(b, call, reservation, fault);
            Matched(b', OrphansAfter(orphans, outcome), OrphansAfter(missed, outcome))
  {
    hide Commit, Matched, Kept, Conserved, FinalEffects, LogRefusal, Estimate, Execute, Permitted, SetReservation, WorkFits;
    var released := SetReservation(b, reservation, Released);
    ReservationKeepsMoney(b, reservation, Released);
    SameMoneyKeeps(b, released, orphans);
    MatchedIsKept(b, orphans, missed);
    RefusalKeeps(released, call, orphans);
    if Execute(b, call).Some? {
      var (executed, work) := Execute(b, call).value;
      ExecuteFits(b, call);
      SameMoneyKeeps(b, executed, orphans);
      var undone := SetReservation(executed, reservation, Released);
      ReservationKeepsMoney(executed, reservation, Released);
      SameMoneyKeeps(executed, undone, orphans);
      RefusalKeeps(undone, call, orphans);
      EffectsCostEstimate(executed, call, work);
      CommitKeepsSpend(executed, call, work, FinalEffects(executed, call, work), reservation, fault, orphans, missed);
    }
  }

  /** Main result, money: with a counter present, every run of the repository's tools keeps budget_spent equal to the
    * un-reversed, un-orphaned costs of the audit log. */
  lemma RunKeepsCounter(b: Books, call: Call, now: int, prune: bool, fault: Fault, orphans: set<Id>, missed: set<Id>)
    requires Matched(b, orphans, missed) && LeavesCostToEngine(call) && SettlesOrNot(fault)
    ensures var (b', outcome) := Run(b, call, now, prune, fault);
            Matched(b', OrphansAfter(orphans, outcome), OrphansAfter(missed, outcome))
  {
    hide Perform, Matched, Kept, Conserved, LogRefusal, Gate, Reserve, Estimate;
    var (gated, ok) := Gate(b, call, now, prune);
    GatesKeepMoney(b, call, now, prune, gated);
    SameMoneyKeeps(b, gated, orphans);
    MatchedIsKept(b, orphans, missed);
    RefusalKeeps(gated, call, orphans);
    if Permitted(gated, call) && Reserve(gated, Estimate(call)).Some? {
      var (reserved, reservation) := Reserve(gated, Estimate(call)).value;
      SameMoneyKeeps(gated, reserved, orphans);
      PerformKeepsSpend(reserved, call, reservation, fault, orphans, missed);
    }
  }

  /** The gap between the rebuilt total and the counter is exactly the cost of the missed orphans. */
  lemma GapIsOrphanCost(b: Books, orphans: set<Id>, missed: set<Id>)
    requires Matched(b, orphans, missed)
    ensures RebuiltSpend(b.logs, b.ledger) - b.counter.value.spent == TotalWithin(b.logs, CostOf, missed)
  {
    forall id | id in missed ensures id !in ReversedIds(b.ledger) {
      NotReversed(b.ledger, id);
    }
    TotalSplits(b.logs, CostOf, ReversedIds(b.ledger), missed);
  }

  /** Rebuild re-establishes the equality from any drift. */
  lemma RebuildMatches(b: Books, orphans: set<Id>)
    requires Kept(b, orphans) && CostsNonNegative(b.logs) && b.counter.Some?
    ensures Matched(Rebuild(b), orphans, {})
    ensures Rebuild(b).counter.value.spent == RebuiltSpend(b.logs, b.ledger)
  {
    assert ReversedIds(b.ledger) + {} == ReversedIds(b.ledger);
  }
}
