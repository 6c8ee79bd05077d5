/** The git bridge: one merged pull request as propose_passage followed by approve_draft, retried until it is approved
  * (handleGitTwinMerge, internal/api/git_twin.go). */
module GitTwin {
  import opened Common
  import opened Books
  import opened Engine
  import Server
  import Drafts
  import Receipts
  import RateLimit

  type DraftRef = string

  datatype EventStatus = EventProposed | EventApproved

  datatype Event = Event(agent: Id, draft: Id, proposeLog: Id, approveLog: Option<Id>, status: EventStatus)

  type Events = map<DraftRef, Event>

  /** What surrounds one engine run: the clock, the pruning draw and the statement that fails. */
  datatype Circumstance = Circumstance(now: int, prune: bool, fault: Fault)

  /** A merged pull request, as the bridge delivers it. */
  datatype Merge = Merge(draftRef: DraftRef, author: PlatformId, units: int, ratio: real)

  /** What it meets on its way: the owner that is found, what surrounds its two runs, and whether its two writes to
    * git_twin_events, whose errors are ignored, are lost. */
  datatype Conditions = Conditions(owner: Option<Id>, propose: Circumstance, approve: Circumstance, recordLost: bool, closeLost: bool)

  datatype Response =
    | BadRequest
    | AlreadyApproved(event: Event)
    | Unmapped
    | ProposeFailed
    | NoOwner
    | ApproveFailed(outcome: Outcome)
    | Merged(proposeLog: Id, approveLog: Id)

  /** FindMemberByPlatformID: the active member with this platform. */
  function ActiveMember(members: map<Id, Member>, platform: PlatformId): (r: Option<Id>)
    ensures r.Some? ==> r.value in members && members[r.value].platform == platform && members[r.value].status == MemberActive
    ensures r.None? ==> forall a :: a in members && members[a].platform == platform ==> members[a].status != MemberActive
  {
    var matches := set a | a in members && members[a].platform == platform && members[a].status == MemberActive;
    if matches == {} then
      assert forall a :: a in members && members[a].platform == platform && members[a].status == MemberActive ==> a in matches;
      None
    else
      LeastExists(matches);
      var a :| IsLeast(a, matches);
      Some(a)
  }

  /** The draft of a completed proposal; its id is drawn just before the log's. */
  function ProposedDraft(logId: Id): Id {
    if logId > 0 then logId - 1 else 0
  }

  /** The event row after the proposal: inserted, or updated in place on a retry. */
  function Recorded(events: Events, m: Merge, agent: Id, logId: Id, lost: bool): Events {
    if lost then events
    else if m.draftRef in events then
      events[m.draftRef := events[m.draftRef].(draft := ProposedDraft(logId), proposeLog := logId, status := EventProposed)]
    else events[m.draftRef := Event(agent, ProposedDraft(logId), logId, None, EventProposed)]
  }

  function Closed(events: Events, m: Merge, logId: Id, lost: bool): Events {
    if lost || m.draftRef !in events then events
    else events[m.draftRef := events[m.draftRef].(approveLog := Some(logId), status := EventApproved)]
  }

  predicate IsApproved(events: Events, draftRef: DraftRef) {
    draftRef in events && events[draftRef].status == EventApproved
  }

  datatype Twin = Twin(books: Books, events: Events)

  function ProposalOf(m: Merge, agent: Id): Call {
    CallPropose(agent, m.units, None)
  }

  function ApprovalOf(m: Merge, owner: Id, draft: Id): Call {
    CallApprove(owner, ByDraft(draft), m.units, if m.ratio == 0.0 then 1.0 else m.ratio, None)
  }

  /** From the completed proposal on. */
  function Approving(t: Twin, m: Merge, c: Conditions, agent: Id, proposeLog: Id): (Twin, Response) {
    var events := Recorded(t.events, m, agent, proposeLog, c.recordLost);
    if c.owner.None? then (Twin(t.books, events), NoOwner)
    else
      var (books, outcome) := Run(t.books, ApprovalOf(m, c.owner.value, ProposedDraft(proposeLog)),
                                  c.approve.now, c.approve.prune, c.approve.fault);
      if !outcome.Completed? then (Twin(books, events), ApproveFailed(outcome))
      else (Twin(books, Closed(events, m, outcome.logId, c.closeLost)), Merged(proposeLog, outcome.logId))
  }

  /** The request past the idempotency check. */
  function Unchecked(t: Twin, m: Merge, c: Conditions): (Twin, Response) {
    var author := ActiveMember(t.books.members, m.author);
    if author.None? then (t, Unmapped)
    else
      var (books, outcome) := Run(t.books, ProposalOf(m, author.value), c.propose.now, c.propose.prune, c.propose.fault);
      if !outcome.Completed? then (Twin(books, t.events), ProposeFailed)
      else Approving(Twin(books, t.events), m, c, author.value, outcome.logId)
  }

  predicate IsMalformed(m: Merge) {
    m.draftRef == "" || m.author == "" || m.units <= 0
  }

  /** handleGitTwinMerge. */
  function Handle(t: Twin, m: Merge, c: Conditions): (Twin, Response) {
    if IsMalformed(m) then (t, BadRequest)
    else if IsApproved(t.events, m.draftRef) then (t, AlreadyApproved(t.events[m.draftRef]))
    else Unchecked(t, m, c)
  }

  /** The handler on the tables. */
  class Bridge {
    const tables: Server.Tables
    var events: Events

    constructor (tables: Server.Tables)
      ensures this.tables == tables && events == map[]
    {
      this.tables := tables;
      events := map[];
    }

    function View(): Twin
      reads this, tables
    {
      Twin(tables.View(), events)
    }

    method HandleMerge(m: Merge, c: Conditions) returns (response: Response)
      modifies this, tables
      ensures View() == Handle(old(View()), m, c).0
      ensures response == Handle(old(View()), m, c).1
    {
      hide Run, tables.View;
      if m.draftRef == "" || m.author == "" || m.units <= 0 {
        return BadRequest;
      }
      if m.draftRef in events && events[m.draftRef].status == EventApproved {
        return AlreadyApproved(events[m.draftRef]);
      }
      var author := ActiveMember(tables.View().members, m.author);
      if author.None? {
        return Unmapped;
      }
      var proposed := tables.Run(ProposalOf(m, author.value), c.propose.now, c.propose.prune, c.propose.fault);
      if !proposed.Completed? {
        return ProposeFailed;
      }
      response := ApproveAsOwner(m, c, author.value, proposed.logId);
    }

    method ApproveAsOwner(m: Merge, c: Conditions, agent: Id, proposeLog: Id) returns (response: Response)
      modifies this, tables
      ensures View() == Approving(old(View()), m, c, agent, proposeLog).0
      ensures response == Approving(old(View()), m, c, agent, proposeLog).1
    {
      hide Run, Recorded, Closed;
      var draft := ProposedDraft(proposeLog);
      events := Recorded(events, m, agent, proposeLog, c.recordLost);
      if c.owner.None? {
        return NoOwner;
      }
      var approved := tables.Run(ApprovalOf(m, c.owner.value, draft), c.approve.now, c.approve.prune, c.approve.fault);
      if !approved.Completed? {
        return ApproveFailed(approved);
      }
      events := Closed(events, m, approved.logId, c.closeLost);
      return Merged(proposeLog, approved.logId);
    }
  }

  // ---- What each engine run does to the ledger ----------------------------------------------------

  /** One more row: an award for this draft. */
  ghost predicate Grew(ledger: seq<LedgerRow>, ledger': seq<LedgerRow>, agent: Id, draft: Id) {
    && |ledger'| == |ledger| + 1 && ledger'[..|ledger|] == ledger
    && var row := ledger'[|ledger|];
       row.source == Passage && row.status == Confirmed && row.ref == draft && row.agent == agent
  }

  predicate Awards(outcome: Outcome) {
    outcome.Completed? || outcome.Unsettled?
  }

  lemma CommitAwards(b: Books, call: Call, work: Work, effects: Effects, reservation: Option<Id>, fault: Fault)
    requires call.CallApprove? && work.Claimed?
    ensures var (b', outcome) := Commit(b, call, work, effects, reservation, fault);
            if Awards(outcome) then Grew(b.ledger, b'.ledger, work.proposer, work.draft) else b'.ledger == b.ledger
  {
    hide SetReservation, RecordSpend, Estimate, Balance;
    var logged := AppendLog(b, call, Success, effects.tokens, effects.cost);
    var applied := Apply(logged, call, work, effects.tokens, b.next, fault).0;
    Drafts.BookkeepingKeepsDrafts(applied, reservation, Released, Estimate(call), b.next);
  }

  lemma PerformAwards(b: Books, call: Call, reservation: Option<Id>, fault: Fault)
    requires call.CallApprove?
    ensures var (b', outcome) := Perform(b, call, reservation, fault); var draft := ResolveDraft(b, call.target);
            if Awards(outcome)
            then draft.Some? && draft.value in b.pending && Grew(b.ledger, b'.ledger, b.pending[draft.value], draft.value)
            else b'.ledger == b.ledger
  {
    hide Commit, SetReservation, FinalEffects, Grew, ResolveDraft;
    Drafts.BookkeepingKeepsDrafts(b, reservation, Released, 0, 0);
    if Execute(b, call).Some? {
      var (executed, work) := Execute(b, call).value;
      Drafts.BookkeepingKeepsDrafts(executed, reservation, Released, 0, 0);
      CommitAwards(executed, call, work, FinalEffects(executed, call, work), reservation, fault);
    }
  }

  /** An approval run awards the draft it names, or finds through a log, exactly when it completes or fails in Step 7. */
  lemma ApprovalRunAwards(b: Books, call: Call, now: int, prune: bool, fault: Fault)
    requires call.CallApprove?
    ensures var (b', outcome) := Run(b, call, now, prune, fault); var draft := ResolveDraft(b, call.target);
            if Awards(outcome)
            then draft.Some? && draft.value in b.pending && Grew(b.ledger, b'.ledger, b.pending[draft.value], draft.value)
            else b'.ledger == b.ledger
  {
    hide Perform, Gate, Reserve, Estimate, Permitted, IsActive, LogRefusal, Grew, ResolveDraft;
    var gated := Gate(b, call, now, prune).0;
    Drafts.GatesKeepDrafts(b, call, now, prune, gated);
    GatesKeepDraftNames(b, call, now, prune);
    if Reserve(gated, Estimate(call)).Some? {
      var (reserved, reservation) := Reserve(gated, Estimate(call)).value;
      PerformAwards(reserved, call, reservation, fault);
    }
  }

  lemma GatesKeepDraftNames(b: Books, call: Call, now: int, prune: bool)
    requires call.CallApprove?
    ensures var gated := Gate(b, call, now, prune).0;
            && ResolveDraft(gated, call.target) == ResolveDraft(b, call.target)
            && (Reserve(gated, Estimate(call)).Some? ==>
                  ResolveDraft(Reserve(gated, Estimate(call)).value.0, call.target) == ResolveDraft(b, call.target))
  {
    hide Estimate, RateLimit.CheckAndIncrement;
  }

  lemma PerformProposes(b: Books, call: Call, reservation: Option<Id>, fault: Fault)
    requires call.CallPropose?
    ensures var (b', outcome) := Perform(b, call, reservation, fault);
            && b'.ledger == b.ledger
            && (outcome.Completed? ==>
                  outcome.logId > 0 && b'.pending == b.pending[ProposedDraft(outcome.logId) := call.agent])
  {
    hide SetReservation, RecordSpend, FinalEffects, Estimate, Post;
    Drafts.BookkeepingKeepsDrafts(b, reservation, Released, 0, 0);
    var (executed, work) := Execute(b, call).value;
    Drafts.BookkeepingKeepsDrafts(executed, reservation, Released, 0, 0);
    var effects := FinalEffects(executed, call, work);
    var logged := AppendLog(executed, call, Success, effects.tokens, effects.cost);
    var applied := Apply(logged, call, work, effects.tokens, executed.next, fault).0;
    Drafts.BookkeepingKeepsDrafts(applied, reservation, Released, Estimate(call), executed.next);
  }

  /** A proposal run awards nothing; a completed one leaves the author's draft pending. */
  lemma ProposalRunProposes(b: Books, call: Call, now: int, prune: bool, fault: Fault)
    requires call.CallPropose?
    ensures var (b', outcome) := Run(b, call, now, prune, fault);
            && b'.ledger == b.ledger
            && (outcome.Completed? ==> b'.pending == b.pending[ProposedDraft(outcome.logId) := call.agent])
  {
    hide Perform, Gate, Reserve, Estimate, Permitted, IsActive, LogRefusal, ProposedDraft;
    var gated := Gate(b, call, now, prune).0;
    Drafts.GatesKeepDrafts(b, call, now, prune, gated);
    if Reserve(gated, Estimate(call)).Some? {
      var (reserved, reservation) := Reserve(gated, Estimate(call)).value;
      PerformProposes(reserved, call, reservation, fault);
    }
  }

  // ---- One request --------------------------------------------------------------------------------

  predicate AwardsResponse(response: Response) {
    response.Merged? || (response.ApproveFailed? && response.outcome.Unsettled?)
  }

  lemma ApprovingAwards(t: Twin, m: Merge, c: Conditions, agent: Id, proposeLog: Id)
    requires ProposedDraft(proposeLog) in t.books.pending && t.books.pending[ProposedDraft(proposeLog)] == agent
    ensures var (t', response) := Approving(t, m, c, agent, proposeLog);
            && (response.NoOwner? || response.ApproveFailed? || response.Merged?)
            && if AwardsResponse(response) then Grew(t.books.ledger, t'.books.ledger, agent, ProposedDraft(proposeLog))
               else t'.books.ledger == t.books.ledger
  {
    hide Run, Grew, ProposedDraft, Recorded, Closed;
    if c.owner.Some? {
      ApprovalRunAwards(t.books, ApprovalOf(m, c.owner.value, ProposedDraft(proposeLog)), c.approve.now, c.approve.prune, c.approve.fault);
    }
  }

  lemma UncheckedAwards(t: Twin, m: Merge, c: Conditions)
    ensures var (t', response) := Unchecked(t, m, c);
            if AwardsResponse(response)
            then var author := ActiveMember(t.books.members, m.author);
                 author.Some? && exists draft :: Grew(t.books.ledger, t'.books.ledger, author.value, draft)
            else t'.books.ledger == t.books.ledger
  {
    hide Run, Grew, ProposedDraft, Approving;
    var author := ActiveMember(t.books.members, m.author);
    if author.Some? {
      var call := ProposalOf(m, author.value);
      ProposalRunProposes(t.books, call, c.propose.now, c.propose.prune, c.propose.fault);
      var (books, outcome) := Run(t.books, call, c.propose.now, c.propose.prune, c.propose.fault);
      if outcome.Completed? {
        ApprovingAwards(Twin(books, t.events), m, c, author.value, outcome.logId);
      }
    }
  }

  /** A request served alone adds at most one ledger row, an award to the author; exactly when it is merged, or its approval
    * failed in Step 7. */
  lemma HandleAwards(t: Twin, m: Merge, c: Conditions)
    ensures var (t', response) := Handle(t, m, c);
            if AwardsResponse(response)
            then var author := ActiveMember(t.books.members, m.author);
                 author.Some? && exists draft :: Grew(t.books.ledger, t'.books.ledger, author.value, draft)
            else t'.books.ledger == t.books.ledger
  {
    UncheckedAwards(t, m, c);
    hide Grew, Unchecked;
  }

  /** The award was made but the event is not marked approved: the approval failed in Step 7, or one of the two
    * unchecked event writes was lost. */
  predicate Loses(events: Events, m: Merge, c: Conditions, response: Response) {
    (response.ApproveFailed? && response.outcome.Unsettled?)
    || (response.Merged? && (c.closeLost || (c.recordLost && m.draftRef !in events)))
  }

  /** A request served alone marks its own event only, and exactly when it is merged and neither write is lost. */
  lemma HandleMarks(t: Twin, m: Merge, c: Conditions, draftRef: DraftRef)
    ensures var (t', response) := Handle(t, m, c);
            IsApproved(t'.events, draftRef) <==>
              IsApproved(t.events, draftRef) || (draftRef == m.draftRef && response.Merged? && !Loses(t.events, m, c, response))
  {
    hide Run;
  }

  // ---- What a merge is paid ----------------------------------------------------------------------------

  /** Steps that leave tiers, members and the rule alone. */
  predicate SameTerms(b: Books, b': Books) {
    b'.members == b.members && b'.tiers == b.tiers && b'.rule == b.rule
  }

  lemma ProposalKeepsTerms(b: Books, call: Call, now: int, prune: bool, fault: Fault)
    requires call.CallPropose? && Run(b, call, now, prune, fault).1.Completed?
    ensures SameTerms(b, Run(b, call, now, prune, fault).0)
  {
    Receipts.ProposalReceipt(b, call.agent, call.units, call.costCents, now, prune, fault, Charged(call.costCents, 10));
    hide Run, Receipts.EndsBudget;
  }

  /** One more row: the author's award for this pull request, at the price of its units and ratio, which is 1 when it is 0, at the
    * author's tier and under the configured rule. */
  ghost predicate PaysMerge(b: Books, ledger': seq<LedgerRow>, m: Merge, author: Id) {
    && |ledger'| == |b.ledger| + 1 && ledger'[..|b.ledger|] == b.ledger
    && var row := ledger'[|b.ledger|];
       && row.agent == author && row.source == Passage && row.status == Confirmed
       && Drafts.IsPriced(b, author, m.units, if m.ratio == 0.0 then 1.0 else m.ratio, row.delta)
  }

  lemma ApprovingPays(t: Twin, m: Merge, c: Conditions, agent: Id, proposeLog: Id)
    requires ProposedDraft(proposeLog) in t.books.pending && t.books.pending[ProposedDraft(proposeLog)] == agent
    ensures var (t', response) := Approving(t, m, c, agent, proposeLog);
            AwardsResponse(response) ==> PaysMerge(t.books, t'.books.ledger, m, agent)
  {
    if c.owner.Some? {
      Drafts.ApprovalPaysProposer(t.books, ApprovalOf(m, c.owner.value, ProposedDraft(proposeLog)),
                                  c.approve.now, c.approve.prune, c.approve.fault);
    }
    hide Run, ProposedDraft, Recorded, Closed, Drafts.IsPriced, Balance;
  }

  lemma TermsPayAlike(b: Books, b': Books, ledger': seq<LedgerRow>, m: Merge, author: Id)
    requires SameTerms(b, b') && b'.ledger == b.ledger && PaysMerge(b', ledger', m, author)
    ensures PaysMerge(b, ledger', m, author)
  {
    hide Drafts.IsPriced;
    Drafts.PriceDependsOn(b, b', author, m.units, if m.ratio == 0.0 then 1.0 else m.ratio, ledger'[|b.ledger|].delta);
  }

  /** Main result: a request that is merged, or whose approval fails in Step 7, pays its author exactly the price of the pull
    * request's units and ratio. */
  lemma MergePays(t: Twin, m: Merge, c: Conditions)
    ensures var (t', response) := Handle(t, m, c);
            AwardsResponse(response) ==>
              exists author :: author in t.books.members && t.books.members[author].platform == m.author
                && t.books.members[author].status == MemberActive && PaysMerge(t.books, t'.books.ledger, m, author)
  {
    hide Run, ProposedDraft, Approving, PaysMerge, SameTerms, ActiveMember, AwardsResponse;
    var author := ActiveMember(t.books.members, m.author);
    if author.Some? {
      var call := ProposalOf(m, author.value);
      ProposalRunProposes(t.books, call, c.propose.now, c.propose.prune, c.propose.fault);
      var (books, outcome) := Run(t.books, call, c.propose.now, c.propose.prune, c.propose.fault);
      if outcome.Completed? {
        ProposalKeepsTerms(t.books, call, c.propose.now, c.propose.prune, c.propose.fault);
        var (t', response) := Approving(Twin(books, t.events), m, c, author.value, outcome.logId);
        ApprovingPays(Twin(books, t.events), m, c, author.value, outcome.logId);
        if AwardsResponse(response) {
          TermsPayAlike(t.books, books, t'.books.ledger, m, author.value);
        }
      }
    }
    QuietResponses();
  }

  lemma QuietResponses()
    ensures !AwardsResponse(BadRequest) && !AwardsResponse(Unmapped) && !AwardsResponse(ProposeFailed)
    ensures forall event :: !AwardsResponse(AlreadyApproved(event))
  {
  }

  /** A merge whose writes are kept is on record: the reference is approved with the draft and both log rows the response names,
    * and the next request is answered with that record. */
  lemma MergedIsOnRecord(t: Twin, m: Merge, c: Conditions, m': Merge, c': Conditions)
    requires m'.draftRef == m.draftRef && !IsMalformed(m')
    ensures var (t', response) := Handle(t, m, c);
            response.Merged? && !c.recordLost && !c.closeLost ==>
              && m.draftRef in t'.events
              && var event := t'.events[m.draftRef];
                 && event.proposeLog == response.proposeLog && event.approveLog == Some(response.approveLog)
                 && event.draft == response.proposeLog - 1 && event.status == EventApproved
                 && Handle(t', m', c') == (t', AlreadyApproved(event))
  {
    var author := ActiveMember(t.books.members, m.author);
    if author.Some? {
      ProposalDrawsBefore(t.books, ProposalOf(m, author.value), c);
    }
    hide Run, ActiveMember;
  }

  lemma ProposalDrawsBefore(b: Books, call: Call, c: Conditions)
    requires call.CallPropose?
    ensures var outcome := Run(b, call, c.propose.now, c.propose.prune, c.propose.fault).1; outcome.Completed? ==> outcome.logId > 0
  {
    hide Perform, Gate, Reserve, Estimate, Permitted, IsActive, LogRefusal;
    var gated := Gate(b, call, c.propose.now, c.propose.prune).0;
    if Reserve(gated, Estimate(call)).Some? {
      var (reserved, reservation) := Reserve(gated, Estimate(call)).value;
      PerformProposes(reserved, call, reservation, c.propose.fault);
    }
  }

  /** The record of a request on its way: the proposal is written over whatever was there, which keeps its first agent and its approval;
    * a lost write leaves what was there. */
  predicate IsProposedRecord(events: Events, draftRef: DraftRef, agent: Id, proposeLog: Id, lost: bool, events': Events) {
    if lost then events' == events
    else
      && draftRef in events' && events' == events[draftRef := events'[draftRef]]
      && var event := events'[draftRef];
         && event.status == EventProposed && event.proposeLog == proposeLog && (proposeLog > 0 ==> event.draft + 1 == proposeLog)
         && (if draftRef in events then event.agent == events[draftRef].agent && event.approveLog == events[draftRef].approveLog
             else event.agent == agent && event.approveLog == None)
  }

  predicate IsAuthor(b: Books, m: Merge, agent: Id) {
    agent in b.members && b.members[agent].platform == m.author && b.members[agent].status == MemberActive
  }

  /** Main result, answers and records: which answer each request gets, in its own fields and those of the rows, and what it leaves in
    * git_twin_events. */
  lemma RequestReceipt(t: Twin, m: Merge, c: Conditions)
    ensures var (t', response) := Handle(t, m, c);
            var malformed := |m.draftRef| == 0 || |m.author| == 0 || m.units <= 0;
            var approved := m.draftRef in t.events && t.events[m.draftRef].status == EventApproved;
            && (response.BadRequest? <==> malformed)
            && (response.AlreadyApproved? <==> !malformed && approved) && (response.AlreadyApproved? ==> response.event == t.events[m.draftRef])
            && (response.Unmapped? <==> !malformed && !approved && !exists agent :: IsAuthor(t.books, m, agent))
            && (response.BadRequest? || response.AlreadyApproved? || response.Unmapped? ==> t' == t)
            && (response.ProposeFailed? ==> t'.events == t.events)
            && (response.NoOwner? ==> c.owner == None)
            && (response.NoOwner? || response.ApproveFailed? ==>
                  exists agent: Id, proposeLog: Id ::
                    IsAuthor(t.books, m, agent) && IsProposedRecord(t.events, m.draftRef, agent, proposeLog, c.recordLost, t'.events))
            && (response.Merged? ==>
                  exists agent: Id, recorded: Events ::
                    && IsAuthor(t.books, m, agent)
                    && IsProposedRecord(t.events, m.draftRef, agent, response.proposeLog, c.recordLost, recorded)
                    && t'.events == (if c.closeLost || m.draftRef !in recorded then recorded
                                     else recorded[m.draftRef := recorded[m.draftRef].(approveLog := Some(response.approveLog),
                                                                                        status := EventApproved)]))
  {
    hide Run;
    var author := ActiveMember(t.books.members, m.author);
    if author.Some? {
      assert IsAuthor(t.books, m, author.value);
      var outcome := Run(t.books, ProposalOf(m, author.value), c.propose.now, c.propose.prune, c.propose.fault).1;
      if outcome.Completed? {
        var recorded := Recorded(t.events, m, author.value, outcome.logId, c.recordLost);
        assert IsProposedRecord(t.events, m.draftRef, author.value, outcome.logId, c.recordLost, recorded);
      }
    }
  }
}
