/** The rows of one covenant (internal/db/schema.sql) and the token ledger operations (internal/tokens/tokens.go).
  * Every statement of the modelled paths names the covenant or a globally unique id, so the rows of other covenants
  * play no part. Fresh ids are drawn from a counter. */
module Books {
  import opened Common
  import opened Formula
  import RateLimit

  type Id = nat
  type TierId = string
  type PlatformId = string

  datatype Lifecycle = DRAFT | OPEN | ACTIVE | LOCKED | SETTLED

  datatype MemberStatus = MemberPending | MemberActive | MemberRejected | MemberLeft

  datatype Member = Member(platform: PlatformId, tier: Option<TierId>, isOwner: bool, status: MemberStatus)

  datatype Tier = Tier(multiplier: real, maxSlots: Option<int>, entryFee: int)

  datatype RequestStatus = Pending | Approved(approveLog: Id) | Rejected(rejectLog: Id)

  /** An access request; platform_id_hash is injective, so the platform stands for its hash. */
  datatype Request = Request(platform: PlatformId, tier: TierId, status: RequestStatus)

  datatype ToolName = ProposePassage | ApproveDraft | RejectDraft | ApproveAccess | RejectAccess | OtherTool(name: string)

  datatype LogResult = Success | Refusal

  /** The columns of audit_logs that carry money and tokens. */
  datatype LogRow = LogRow(id: Id, agent: Id, tool: ToolName, result: LogResult, tokens: int, cost: int)

  datatype Source = Passage | EntryFee

  datatype RowStatus = Confirmed | Reversed

  datatype LedgerRow = LedgerRow(agent: Id, delta: int, balanceAfter: int, source: Source, ref: Id, logId: Id, status: RowStatus)

  datatype Counter = Counter(limit: int, spent: int)

  datatype ReservationStatus = Reserved | Settled(logId: Id) | Released

  datatype Reservation = Reservation(amount: int, status: ReservationStatus)

  datatype Books = Books(
    state: Lifecycle,
    currency: string,
    rule: Option<Rule>,
    hourlyLimit: int,
    buckets: RateLimit.Buckets,
    identities: set<PlatformId>,
    members: map<Id, Member>,
    tiers: map<TierId, Tier>,
    requests: map<Id, Request>,
    logs: seq<LogRow>,
    ledger: seq<LedgerRow>,
    pending: map<Id, Id>,
    counter: Option<Counter>,
    reservations: map<Id, Reservation>,
    next: Id)

  // ---- Sums over the two durable tables ---------------------------------------------------------

  /** The sum of a weight over the log rows whose id is not in `dropped`. */
  function Total(logs: seq<LogRow>, weight: LogRow -> int, dropped: set<Id>): int {
    if logs == [] then 0
    else
      var last := logs[|logs| - 1];
      Total(logs[..|logs| - 1], weight, dropped) + if last.id in dropped then 0 else weight(last)
  }

  /** cost_delta of a successful row. */
  function CostOf(row: LogRow): int {
    if row.result == Success then row.cost else 0
  }

  /** tokens_delta of a successful approval. */
  function AwardOf(row: LogRow): int {
    if row.result == Success && row.tool == ApproveDraft then row.tokens else 0
  }

  function ReversedIds(ledger: seq<LedgerRow>): set<Id> {
    set i | 0 <= i < |ledger| && ledger[i].status == Reversed :: ledger[i].logId
  }

  /** The sum RebuildFromAuditLog selects: successful rows whose ledger row, if any, is not reversed. */
  function RebuiltSpend(logs: seq<LogRow>, ledger: seq<LedgerRow>): int {
    Total(logs, CostOf, ReversedIds(ledger))
  }

  /** The sum of a weight over the confirmed ledger rows. */
  function Sum(ledger: seq<LedgerRow>, weight: LedgerRow -> int): int {
    if ledger == [] then 0
    else
      var last := ledger[|ledger| - 1];
      Sum(ledger[..|ledger| - 1], weight) + if last.status == Confirmed then weight(last) else 0
  }

  function DeltaOf(row: LedgerRow): int {
    row.delta
  }

  function DeltaOfAgent(agent: Id): LedgerRow -> int {
    (row: LedgerRow) => if row.agent == agent then row.delta else 0
  }

  /** tokens.Balance. */
  function Balance(ledger: seq<LedgerRow>, agent: Id): int {
    Sum(ledger, DeltaOfAgent(agent))
  }

  function FeeOf(row: LedgerRow): int {
    if row.source == EntryFee then -row.delta else 0
  }

  // ---- Ledger operations ------------------------------------------------------------------------

  /** What happens to the ledger: an award, an entry fee booked for a new member, or a reversal. */
  datatype Posting =
    | Award(agent: Id, delta: int, ref: Id, logId: Id)
    | Fee(agent: Id, fee: int, ref: Id, logId: Id)
    | Reversal(logId: Id)

  /** Every row of this log id becomes reversed. */
  function Reverse(ledger: seq<LedgerRow>, logId: Id): seq<LedgerRow> {
    seq(|ledger|, i requires 0 <= i < |ledger| =>
      if ledger[i].logId == logId then ledger[i].(status := Reversed) else ledger[i])
  }

  function Post(ledger: seq<LedgerRow>, p: Posting): seq<LedgerRow> {
    match p
    case Award(agent, delta, ref, logId) =>
      ledger + [LedgerRow(agent, delta, Balance(ledger, agent) + delta, Passage, ref, logId, Confirmed)]
    case Fee(agent, fee, ref, logId) =>
      ledger + [LedgerRow(agent, -fee, -fee, EntryFee, ref, logId, Confirmed)]
    case Reversal(logId) => Reverse(ledger, logId)
  }

  /** A row with this log id exists and is not reversed. */
  predicate IsConfirmed(ledger: seq<LedgerRow>, logId: Id) {
    exists i :: 0 <= i < |ledger| && ledger[i].logId == logId && ledger[i].status == Confirmed
  }

  predicate HasLogId(ledger: seq<LedgerRow>, logId: Id) {
    exists i :: 0 <= i < |ledger| && ledger[i].logId == logId
  }

  // ---- Lookups ----------------------------------------------------------------------------------

  function CostOfLog(logs: seq<LogRow>, id: Id): int {
    if logs == [] then 0
    else if logs[|logs| - 1].id == id then logs[|logs| - 1].cost
    else CostOfLog(logs[..|logs| - 1], id)
  }

  function AgentOfLog(logs: seq<LogRow>, id: Id): Option<Id> {
    if logs == [] then None
    else if logs[|logs| - 1].id == id then Some(logs[|logs| - 1].agent)
    else AgentOfLog(logs[..|logs| - 1], id)
  }

  predicate IsLeast(x: Id, s: set<Id>) {
    x in s && forall y :: y in s ==> x <= y
  }

  lemma {:induction false} LeastExists(s: set<Id>)
    requires s != {}
    ensures exists x :: IsLeast(x, s)
  {
    var x :| x in s;
    var rest := s - {x};
    assert forall y :: y in s ==> y == x || y in rest;
    if rest == {} {
      assert IsLeast(x, s);
    } else {
      LeastExists(rest);
      var z :| IsLeast(z, rest);
      assert IsLeast(if x < z then x else z, s);
    }
  }

  /** The first pending draft of an agent, in insertion order. */
  function OldestDraft(pending: map<Id, Id>, agent: Id): (r: Option<Id>)
    ensures r.Some? ==> r.value in pending && pending[r.value] == agent
    ensures r.Some? ==> forall d :: d in pending && pending[d] == agent ==> r.value <= d
    ensures r.None? ==> forall d :: d in pending ==> pending[d] != agent
  {
    var drafts := set d | d in pending && pending[d] == agent;
    if drafts == {} then
      assert forall d :: d in pending && pending[d] == agent ==> d in drafts;
      None
    else
      LeastExists(drafts);
      var d :| IsLeast(d, drafts);
      assert forall e :: e in pending && pending[e] == agent ==> e in drafts;
      Some(d)
  }
}
