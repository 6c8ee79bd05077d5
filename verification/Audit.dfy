/** The hash-chained audit log of one covenant (internal/audit/audit.go). SHA-256 is a parameter, assumed
  * injective where stated; timestamps and previews are their already formatted texts. */
module Audit {
  import opened Printing

  const GENESIS := "GENESIS"
  const V20 := "ACR-300@2.0"
  const V22 := "ACR-300@2.2"

  type Hash = string -> string

  ghost predicate Injective(sha: Hash) {
    forall a, b :: sha(a) == sha(b) ==> a == b
  }

  datatype Entry = Entry(
    logId: string, covenantId: string, sequence: int, agentId: string, sessionId: string,
    toolName: string, toolType: string, paramsHash: string, paramsPreview: string,
    result: string, resultDetail: string, tokensDelta: int, costDelta: int, costCurrency: string,
    netDelta: real, stateBefore: string, stateAfter: string, timestamp: string,
    prevLogId: string, hash: string, specVersion: string)

  function PrevPart(e: Entry): string {
    if e.prevLogId != "" then e.prevLogId else GENESIS
  }

  function CostField(e: Entry): string {
    if e.specVersion == V20 then Fixed8(e.costDelta as real) else Decimal(e.costDelta)
  }

  /** The hash components: fifteen under version 2.2, fourteen under any other. */
  function Components(e: Entry): seq<string> {
    [PrevPart(e), e.logId, e.covenantId, Decimal(e.sequence), e.agentId, e.toolName, e.result,
     Decimal(e.tokensDelta), CostField(e)]
    + (if e.specVersion == V22 then [e.costCurrency] else [])
    + [Fixed8(e.netDelta), e.stateAfter, e.timestamp, e.paramsHash, e.specVersion]
  }

  function Join(parts: seq<string>): string
    requires parts != []
  {
    if |parts| == 1 then parts[0] else parts[0] + ([SEPARATOR] + Join(parts[1..]))
  }

  function Payload(e: Entry): string {
    Join(Components(e))
  }

  /** computeHash. */
  function ComputeHash(sha: Hash, e: Entry): string {
    sha(Payload(e))
  }

  // ---- What the payload determines --------------------------------------------------------------

  predicate SeparatorFree(parts: seq<string>) {
    forall i :: 0 <= i < |parts| ==> SEPARATOR !in parts[i]
  }

  /** The free-text components carry no separator, and no log is called GENESIS. */
  predicate Clean(e: Entry) {
    && SeparatorFree([e.prevLogId, e.logId, e.covenantId, e.agentId, e.toolName, e.result, e.costCurrency,
                      e.stateAfter, e.timestamp, e.paramsHash, e.specVersion])
    && e.prevLogId != GENESIS
  }

  /** Two entries that agree on every field the hash covers. The currency is covered by version 2.2 only, the
    * net delta up to eight decimals; session, tool type, result detail and previous state are not covered. */
  predicate SameCovered(a: Entry, b: Entry) {
    && a.specVersion == b.specVersion
    && a.prevLogId == b.prevLogId && a.logId == b.logId && a.covenantId == b.covenantId
    && a.sequence == b.sequence && a.agentId == b.agentId && a.toolName == b.toolName && a.result == b.result
    && a.tokensDelta == b.tokensDelta && a.costDelta == b.costDelta
    && (a.specVersion == V22 ==> a.costCurrency == b.costCurrency)
    && ToFixed(a.netDelta) == ToFixed(b.netDelta)
    && a.stateAfter == b.stateAfter && a.timestamp == b.timestamp && a.paramsHash == b.paramsHash
  }

  lemma FirstPartIsReadBack(x: string, r: string, y: string, s: string)
    requires SEPARATOR !in x && SEPARATOR !in y
    requires x + ([SEPARATOR] + r) == y + ([SEPARATOR] + s)
    ensures x == y && r == s
  {
    var whole := x + ([SEPARATOR] + r);
    assert whole[|x|] == SEPARATOR && whole[|y|] == SEPARATOR;
    assert forall k :: 0 <= k < |x| ==> whole[k] == x[k] && x[k] in x;
    assert forall k :: 0 <= k < |y| ==> whole[k] == y[k] && y[k] in y;
    assert x == whole[..|x|] && y == whole[..|y|];
    assert r == whole[|x| + 1..] && s == whole[|y| + 1..];
  }

  lemma JoinKeepsSeparators(parts: seq<string>)
    requires |parts| > 1
    ensures SEPARATOR in Join(parts)
  {
    assert Join(parts)[|parts[0]|] == SEPARATOR;
  }

  lemma {:induction false} JoinInjective(a: seq<string>, b: seq<string>)
    requires a != [] && b != [] && SeparatorFree(a) && SeparatorFree(b)
    requires Join(a) == Join(b)
    ensures a == b
  {
    if |a| == 1 && |b| > 1 {
      JoinKeepsSeparators(b);
    } else if |b| == 1 && |a| > 1 {
      JoinKeepsSeparators(a);
    } else if |a| > 1 {
      FirstPartIsReadBack(a[0], Join(a[1..]), b[0], Join(b[1..]));
      JoinInjective(a[1..], b[1..]);
      assert a == [a[0]] + a[1..] && b == [b[0]] + b[1..];
    }
  }

  lemma JoinsMore(head: string, rest: seq<string>)
    requires rest != []
    ensures Join([head] + rest) == head + "|" + Join(rest)
  {
    assert ([head] + rest)[1..] == rest;
  }

  lemma JoinsFive(a: string, b: string, c: string, d: string, e: string)
    ensures Join([a, b, c, d, e]) == a + "|" + b + "|" + c + "|" + d + "|" + e
  {
    JoinsMore(a, [b, c, d, e]);
    JoinsMore(b, [c, d, e]);
    JoinsMore(c, [d, e]);
    JoinsMore(d, [e]);
    assert [a, b, c, d, e] == [a] + [b, c, d, e] && [b, c, d, e] == [b] + [c, d, e] && [c, d, e] == [c] + [d, e] && [d, e] == [d] + [e];
  }

  lemma ComponentsAreSeparatorFree(e: Entry)
    requires Clean(e)
    ensures SeparatorFree(Components(e))
  {
    var free := [e.prevLogId, e.logId, e.covenantId, e.agentId, e.toolName, e.result, e.costCurrency,
                 e.stateAfter, e.timestamp, e.paramsHash, e.specVersion];
    assert SEPARATOR !in free[0] && SEPARATOR !in free[1] && SEPARATOR !in free[2] && SEPARATOR !in free[3]
        && SEPARATOR !in free[4] && SEPARATOR !in free[5] && SEPARATOR !in free[6] && SEPARATOR !in free[7]
        && SEPARATOR !in free[8] && SEPARATOR !in free[9] && SEPARATOR !in free[10];
    DecimalHasNoSeparator(e.sequence);
    DecimalHasNoSeparator(e.tokensDelta);
    DecimalHasNoSeparator(e.costDelta);
    FixedParts(ToFixed(e.costDelta as real));
    FixedParts(ToFixed(e.netDelta));
  }

  lemma ComponentsDetermineFields(a: Entry, b: Entry)
    requires Clean(a) && Clean(b)
    requires Components(a) == Components(b)
    ensures SameCovered(a, b)
  {
    var c, d := Components(a), Components(b);
    assert c[|c| - 1] == a.specVersion && d[|d| - 1] == b.specVersion;
    assert c[0] == PrevPart(a) && d[0] == PrevPart(b);
    assert c[1] == a.logId && c[2] == a.covenantId && c[4] == a.agentId && c[5] == a.toolName && c[6] == a.result;
    assert d[1] == b.logId && d[2] == b.covenantId && d[4] == b.agentId && d[5] == b.toolName && d[6] == b.result;
    assert c[3] == Decimal(a.sequence) && d[3] == Decimal(b.sequence);
    assert c[7] == Decimal(a.tokensDelta) && d[7] == Decimal(b.tokensDelta);
    assert c[8] == CostField(a) && d[8] == CostField(b);
    DecimalInjective(a.sequence, b.sequence);
    DecimalInjective(a.tokensDelta, b.tokensDelta);
    if a.specVersion == V20 {
      PrintFixedInjective(ToFixed(a.costDelta as real), ToFixed(b.costDelta as real));
      IntegersAreExact(a.costDelta, b.costDelta);
    } else {
      DecimalInjective(a.costDelta, b.costDelta);
    }
    TailDeterminesFields(a, b);
  }

  lemma TailDeterminesFields(a: Entry, b: Entry)
    requires Components(a) == Components(b) && a.specVersion == b.specVersion
    ensures a.specVersion == V22 ==> a.costCurrency == b.costCurrency
    ensures ToFixed(a.netDelta) == ToFixed(b.netDelta)
    ensures a.stateAfter == b.stateAfter && a.timestamp == b.timestamp && a.paramsHash == b.paramsHash
  {
    var c, d := Components(a), Components(b);
    var n := |c|;
    if a.specVersion == V22 {
      assert c[9] == a.costCurrency && d[9] == b.costCurrency;
    }
    assert c[n - 5] == Fixed8(a.netDelta) && d[n - 5] == Fixed8(b.netDelta);
    assert c[n - 4] == a.stateAfter && d[n - 4] == b.stateAfter;
    assert c[n - 3] == a.timestamp && d[n - 3] == b.timestamp;
    assert c[n - 2] == a.paramsHash && d[n - 2] == b.paramsHash;
    PrintFixedInjective(ToFixed(a.netDelta), ToFixed(b.netDelta));
  }

  /** Main result: across versions and layouts, two payloads are equal exactly when every covered field is. */
  lemma PayloadIsExact(a: Entry, b: Entry)
    requires Clean(a) && Clean(b)
    ensures Payload(a) == Payload(b) <==> SameCovered(a, b)
  {
    if Payload(a) == Payload(b) {
      ComponentsAreSeparatorFree(a);
      ComponentsAreSeparatorFree(b);
      JoinInjective(Components(a), Components(b));
      ComponentsDetermineFields(a, b);
    }
  }

  // ---- The chain --------------------------------------------------------------------------------

  /** How a row's hash is re-derived. The chain's structure does not depend on what is hashed. */
  type Derive = Entry -> string

  function Deriver(sha: Hash): Derive {
    e => ComputeHash(sha, e)
  }

  /** The stored hash is not itself hashed. */
  ghost predicate IgnoresStoredHash(derive: Derive) {
    forall e: Entry, h: string :: derive(e.(hash := h)) == derive(e)
  }

  lemma DeriverIgnoresStoredHash(sha: Hash)
    ensures IgnoresStoredHash(Deriver(sha))
  {
    forall e: Entry, h: string
      ensures Deriver(sha)(e.(hash := h)) == Deriver(sha)(e)
    {
      assert Components(e.(hash := h)) == Components(e);
    }
  }

  datatype Violation = LinkMismatch(row: int) | HashMismatch(row: int)

  function PreviousId(rows: seq<Entry>, i: nat): string
    requires i <= |rows|
  {
    if i == 0 then "" else rows[i - 1].logId
  }

  /** What VerifyChain appends for one row, given the id of the row before it. */
  function RowViolations(derive: Derive, previous: string, e: Entry): seq<Violation> {
    (if e.prevLogId != previous then [LinkMismatch(e.sequence)] else [])
    + (if derive(e) != e.hash then [HashMismatch(e.sequence)] else [])
  }

  function Violations(derive: Derive, rows: seq<Entry>): seq<Violation> {
    if rows == [] then []
    else
      var n := |rows| - 1;
      Violations(derive, rows[..n]) + RowViolations(derive, PreviousId(rows, n), rows[n])
  }

  predicate Verifies(derive: Derive, rows: seq<Entry>) {
    Violations(derive, rows) == []
  }

  /** The row LogEvent inserts for a draft. */
  function Stamp(derive: Derive, sha: Hash, rows: seq<Entry>, draft: Entry, logId: string, clock: string): Entry {
    var n := |rows|;
    var stamped := draft.(
      logId := logId,
      sequence := if n == 0 then 1 else rows[n - 1].sequence + 1,
      prevLogId := PreviousId(rows, n),
      timestamp := if draft.timestamp == "" then clock else draft.timestamp,
      specVersion := if draft.specVersion == "" then V22 else draft.specVersion,
      costCurrency := if draft.costCurrency == "" then "USD" else draft.costCurrency,
      paramsHash := sha(draft.paramsPreview));
    stamped.(hash := derive(stamped))
  }

  ghost predicate InPlace(derive: Derive, rows: seq<Entry>, i: nat)
    requires i < |rows|
  {
    && rows[i].sequence == i + 1
    && rows[i].prevLogId == PreviousId(rows, i)
    && derive(rows[i]) == rows[i].hash
    && rows[i].logId != ""
  }

  /** Every log LogEvent builds: sequences 1..n, links to the previous log, fresh non-empty ids. */
  ghost predicate WellBuilt(derive: Derive, rows: seq<Entry>) {
    && (forall i: nat :: i < |rows| ==> InPlace(derive, rows, i))
    && (forall i, j :: 0 <= i < j < |rows| ==> rows[i].logId != rows[j].logId)
  }

  /** Every row commits to the preview it was written with. */
  ghost predicate Committed(sha: Hash, rows: seq<Entry>) {
    forall i :: 0 <= i < |rows| ==> rows[i].paramsHash == sha(rows[i].paramsPreview)
  }

  lemma StampCommits(derive: Derive, sha: Hash, rows: seq<Entry>, draft: Entry, logId: string, clock: string)
    requires Committed(sha, rows)
    ensures Committed(sha, rows + [Stamp(derive, sha, rows, draft, logId, clock)])
  {
  }

  predicate FreshId(rows: seq<Entry>, logId: string) {
    logId != "" && forall i :: 0 <= i < |rows| ==> rows[i].logId != logId
  }

  lemma StampExtends(derive: Derive, sha: Hash, rows: seq<Entry>, draft: Entry, logId: string, clock: string)
    requires IgnoresStoredHash(derive) && WellBuilt(derive, rows) && FreshId(rows, logId)
    ensures WellBuilt(derive, rows + [Stamp(derive, sha, rows, draft, logId, clock)])
  {
    var e := Stamp(derive, sha, rows, draft, logId, clock);
    var all := rows + [e];
    forall i: nat | i < |all|
      ensures InPlace(derive, all, i)
    {
      if i < |rows| {
        assert InPlace(derive, rows, i);
        assert PreviousId(all, i) == PreviousId(rows, i);
      } else {
        assert i > 0 ==> InPlace(derive, rows, i - 1);
        assert derive(e.(hash := "")) == derive(e);
      }
    }
  }

  /** audit_logs of one covenant, in sequence order. */
  class AuditLog {
    const sha: Hash
    const derive: Derive
    var rows: seq<Entry>

    constructor (sha: Hash)
      ensures this.sha == sha && derive == Deriver(sha) && rows == []
      ensures IgnoresStoredHash(derive) && WellBuilt(derive, rows) && Committed(sha, rows)
    {
      this.sha := sha;
      derive := Deriver(sha);
      rows := [];
      new;
      DeriverIgnoresStoredHash(sha);
    }

    method LogEvent(draft: Entry, logId: string, clock: string) returns (e: Entry)
      requires IgnoresStoredHash(derive) && WellBuilt(derive, rows) && Committed(sha, rows) && FreshId(rows, logId)
      modifies this
      ensures WellBuilt(derive, rows) && Committed(sha, rows)
      ensures e == Stamp(derive, sha, old(rows), draft, logId, clock) && rows == old(rows) + [e]
    {
      hide WellBuilt, Committed, FreshId, IgnoresStoredHash;
      var seqNo, prevId := 1, "";
      if |rows| > 0 {
        seqNo := rows[|rows| - 1].sequence + 1;
        prevId := rows[|rows| - 1].logId;
      }
      e := draft.(logId := logId, sequence := seqNo, prevLogId := prevId);
      if e.timestamp == "" {
        e := e.(timestamp := clock);
      }
      if e.specVersion == "" {
        e := e.(specVersion := V22);
      }
      if e.costCurrency == "" {
        e := e.(costCurrency := "USD");
      }
      e := e.(paramsHash := sha(e.paramsPreview));
      e := e.(hash := derive(e));
      StampExtends(derive, sha, rows, draft, logId, clock);
      StampCommits(derive, sha, rows, draft, logId, clock);
      rows := rows + [e];
    }

    /** VerifyChain reports, in row order, every broken link and every hash that does not re-derive. */
    method VerifyChain() returns (valid: bool, violations: seq<Violation>)
      ensures violations == Violations(derive, rows)
      ensures valid <==> forall i: nat :: i < |rows| ==> RowAccepted(derive, rows, i)
    {
      violations := [];
      var prevId := "";
      for i := 0 to |rows|
        invariant prevId == PreviousId(rows, i)
        invariant violations == Violations(derive, rows[..i])
      {
        var e := rows[i];
        assert rows[..i + 1][..i] == rows[..i];
        assert PreviousId(rows[..i + 1], i) == PreviousId(rows, i);
        if e.prevLogId != prevId {
          violations := violations + [LinkMismatch(e.sequence)];
        }
        if derive(e) != e.hash {
          violations := violations + [HashMismatch(e.sequence)];
        }
        prevId := e.logId;
      }
      assert rows[..|rows|] == rows;
      AcceptanceIsRowWise(derive, rows);
      valid := |violations| == 0;
    }
  }

  ghost predicate RowAccepted(derive: Derive, rows: seq<Entry>, i: nat)
    requires i < |rows|
  {
    rows[i].prevLogId == PreviousId(rows, i) && derive(rows[i]) == rows[i].hash
  }

  lemma {:induction false} AcceptanceIsRowWise(derive: Derive, rows: seq<Entry>)
    ensures Verifies(derive, rows) <==> forall i: nat :: i < |rows| ==> RowAccepted(derive, rows, i)
  {
    if rows != [] {
      var n := |rows| - 1;
      AcceptanceIsRowWise(derive, rows[..n]);
      forall i: nat | i < n
        ensures RowAccepted(derive, rows[..n], i) <==> RowAccepted(derive, rows, i)
      {
        assert PreviousId(rows[..n], i) == PreviousId(rows, i);
      }
      assert RowViolations(derive, PreviousId(rows, n), rows[n]) == [] <==> RowAccepted(derive, rows, n);
    }
  }

  lemma {:induction false} HashMismatchesAreListed(derive: Derive, rows: seq<Entry>, i: nat)
    requires i < |rows| && derive(rows[i]) != rows[i].hash
    ensures HashMismatch(rows[i].sequence) in Violations(derive, rows)
  {
    var n := |rows| - 1;
    if i < n {
      HashMismatchesAreListed(derive, rows[..n], i);
    }
  }

  /** Soundness: every log LogEvent built verifies. */
  lemma BuiltLogsVerify(derive: Derive, rows: seq<Entry>)
    requires WellBuilt(derive, rows)
    ensures Verifies(derive, rows)
  {
    forall i: nat | i < |rows|
      ensures RowAccepted(derive, rows, i)
    {
      assert InPlace(derive, rows, i);
    }
    AcceptanceIsRowWise(derive, rows);
  }

  /** Main result: of all the row sequences drawn from a built log (with deletions, reorderings and repeats), the
    * verifier accepts exactly the prefixes; so a removed tail is the one edit of this kind it cannot see. */
  lemma DrawnRowsVerifyIffPrefix(derive: Derive, log: seq<Entry>, drawn: seq<Entry>)
    requires WellBuilt(derive, log)
    requires forall i :: 0 <= i < |drawn| ==> drawn[i] in log
    ensures Verifies(derive, drawn) <==> drawn <= log
  {
    AcceptanceIsRowWise(derive, drawn);
    if Verifies(derive, drawn) {
      AcceptedRowsAreInPlace(derive, log, drawn, |drawn|);
      assert drawn[..|drawn|] == drawn;
    }
    if drawn <= log {
      forall i: nat | i < |drawn|
        ensures RowAccepted(derive, drawn, i)
      {
        assert InPlace(derive, log, i);
        assert drawn[i] == log[i];
        assert PreviousId(drawn, i) == PreviousId(log, i);
      }
    }
  }

  /** The accepted row after position n of the log is the one at position n. */
  lemma SuccessorIsUnique(derive: Derive, log: seq<Entry>, previous: string, k: nat, n: nat)
    requires WellBuilt(derive, log) && k < |log|
    requires log[k].prevLogId == previous
    requires n <= |log| && previous == PreviousId(log, n)
    ensures k == n
  {
    assert InPlace(derive, log, k);
    assert n > 0 ==> InPlace(derive, log, n - 1);
    assert k > 0 ==> InPlace(derive, log, k - 1);
  }

  lemma {:induction false} AcceptedRowsAreInPlace(derive: Derive, log: seq<Entry>, drawn: seq<Entry>, n: nat)
    requires WellBuilt(derive, log) && n <= |drawn|
    requires forall i :: 0 <= i < |drawn| ==> drawn[i] in log
    requires forall i: nat :: i < |drawn| ==> RowAccepted(derive, drawn, i)
    ensures n <= |log| && drawn[..n] == log[..n]
  {
    if n > 0 {
      AcceptedRowsAreInPlace(derive, log, drawn, n - 1);
      var e := drawn[n - 1];
      var k :| 0 <= k < |log| && log[k] == e;
      assert RowAccepted(derive, drawn, n - 1);
      assert PreviousId(drawn, n - 1) == PreviousId(log, n - 1) by {
        assert n > 1 ==> drawn[..n - 1][n - 2] == log[..n - 1][n - 2];
      }
      SuccessorIsUnique(derive, log, e.prevLogId, k, n - 1);
      assert drawn[..n] == drawn[..n - 1] + [e] && log[..n] == log[..n - 1] + [e];
    }
  }

  /** A row keeps everything its caller gave but what the log assigns: the id, the next sequence, the link, the defaults, and the two
    * hashes. */
  lemma StampKeepsDraft(sha: Hash, rows: seq<Entry>, draft: Entry, logId: string, clock: string)
    requires WellBuilt(Deriver(sha), rows)
    ensures var e := Stamp(Deriver(sha), sha, rows, draft, logId, clock);
            && e == draft.(logId := logId, sequence := |rows| + 1, prevLogId := e.prevLogId, timestamp := e.timestamp,
                           specVersion := e.specVersion, costCurrency := e.costCurrency, paramsHash := e.paramsHash, hash := e.hash)
            && (rows == [] ==> e.prevLogId == "") && (rows != [] ==> e.prevLogId == rows[|rows| - 1].logId)
            && (if draft.timestamp == "" then e.timestamp == clock else e.timestamp == draft.timestamp)
            && (if draft.specVersion == "" then e.specVersion == "ACR-300@2.2" else e.specVersion == draft.specVersion)
            && (if draft.costCurrency == "" then e.costCurrency == "USD" else e.costCurrency == draft.costCurrency)
            && Committed(sha, [e]) && e.hash == sha(Payload(e))
  {
    assert rows != [] ==> InPlace(Deriver(sha), rows, |rows| - 1);
    DeriverIgnoresStoredHash(sha);
    var e := Stamp(Deriver(sha), sha, rows, draft, logId, clock);
    assert Deriver(sha)(e.(hash := e.hash)) == Deriver(sha)(e);
    assert [e][0] == e;
  }

  /** Main result, parameters: rows written for different previews have different params hashes and different hashes, whatever else
    * they were written with. */
  lemma DifferentPreviewsDiffer(sha: Hash, a: Entry, b: Entry)
    requires Injective(sha) && Committed(sha, [a, b]) && a.paramsPreview != b.paramsPreview && Clean(a) && Clean(b)
    ensures a.paramsHash != b.paramsHash && Deriver(sha)(a) != Deriver(sha)(b)
  {
    assert [a, b][0] == a && [a, b][1] == b;
    DerivedHashesDiffer(sha, a, b);
  }

  /** In every log that LogEvent builds two rows have one params hash exactly when they have one preview. */
  lemma PreviewsAreCommitted(sha: Hash, rows: seq<Entry>, i: nat, j: nat)
    requires Injective(sha) && Committed(sha, rows) && i < |rows| && j < |rows|
    ensures rows[i].paramsHash == rows[j].paramsHash <==> rows[i].paramsPreview == rows[j].paramsPreview
  {
    assert rows[i].paramsHash == sha(rows[i].paramsPreview) && rows[j].paramsHash == sha(rows[j].paramsPreview);
  }

  /** VerifyChain never compares the two: a rewritten preview alone is not seen, although it no longer matches its hash. */
  lemma RewrittenPreviewIsNotSeen(sha: Hash, rows: seq<Entry>, i: nat, preview: string)
    requires Injective(sha) && WellBuilt(Deriver(sha), rows) && Committed(sha, rows) && i < |rows|
    ensures var rows' := rows[i := rows[i].(paramsPreview := preview)];
            && Verifies(Deriver(sha), rows') && (Committed(sha, rows') <==> preview == rows[i].paramsPreview)
  {
    var e := rows[i].(paramsPreview := preview);
    var rows' := rows[i := e];
    assert Components(e) == Components(rows[i]);
    forall k: nat | k < |rows'| ensures RowAccepted(Deriver(sha), rows', k) {
      assert InPlace(Deriver(sha), rows, k);
      assert PreviousId(rows', k) == PreviousId(rows, k);
    }
    AcceptanceIsRowWise(Deriver(sha), rows');
    assert Committed(sha, rows') ==> rows'[i].paramsHash == sha(preview);
  }

  lemma DerivedHashesDiffer(sha: Hash, a: Entry, b: Entry)
    requires Injective(sha) && Clean(a) && Clean(b)
    ensures Deriver(sha)(a) == Deriver(sha)(b) <==> SameCovered(a, b)
  {
    PayloadIsExact(a, b);
  }

  /** Main result: when a row is rewritten but keeps its stored hash, VerifyChain reports a hash mismatch for it
    * exactly when a covered field changed. */
  lemma CoveredChangesAreReported(sha: Hash, derive: Derive, rows: seq<Entry>, i: nat, e: Entry)
    requires Injective(sha) && derive == Deriver(sha) && WellBuilt(derive, rows) && i < |rows|
    requires Clean(rows[i]) && Clean(e) && e.hash == rows[i].hash
    ensures derive(e) != e.hash <==> !SameCovered(e, rows[i])
    ensures !SameCovered(e, rows[i]) ==>
              !Verifies(derive, rows[i := e]) && HashMismatch(e.sequence) in Violations(derive, rows[i := e])
  {
    assert InPlace(derive, rows, i);
    DerivedHashesDiffer(sha, e, rows[i]);
    if derive(e) != e.hash {
      HashMismatchesAreListed(derive, rows[i := e], i);
    }
  }

  lemma {:induction false} JoinsParts(a: seq<string>, b: seq<string>)
    requires a != [] && b != []
    ensures Join(a + b) == Join(a) + "|" + Join(b)
  {
    assert (a + b)[1..] == a[1..] + b;
    if |a| > 1 {
      JoinsParts(a[1..], b);
    }
  }

  function Identity(e: Entry): seq<string> {
    [if e.prevLogId == "" then "GENESIS" else e.prevLogId, e.logId, e.covenantId, Decimal(e.sequence), e.agentId]
  }

  function Deltas(e: Entry): seq<string> {
    [e.toolName, e.result, Decimal(e.tokensDelta),
     if e.specVersion == "ACR-300@2.0" then Fixed8(e.costDelta as real) else Decimal(e.costDelta)]
  }

  function Closing(e: Entry): seq<string> {
    [Fixed8(e.netDelta), e.stateAfter, e.timestamp, e.paramsHash, e.specVersion]
  }

  lemma ComponentsInParts(e: Entry)
    ensures Components(e) == Identity(e) + (Deltas(e) + if e.specVersion == "ACR-300@2.2" then [e.costCurrency] + Closing(e) else Closing(e))
  {
    hide Fixed8, Decimal;
  }

  /** The text that is hashed, in the order the format fixes: the first row of a log stands on GENESIS; version 2.0 prints its cost
    * with eight decimals; version 2.2 adds the currency after it. */
  lemma PayloadText(e: Entry)
    ensures var closing := if e.specVersion == "ACR-300@2.2" then e.costCurrency + "|" + Join(Closing(e)) else Join(Closing(e));
            Payload(e) == Join(Identity(e)) + "|" + (Join(Deltas(e)) + "|" + closing)
  {
    ComponentsInParts(e);
    assert Identity(e) != [] && Deltas(e) != [] && Closing(e) != [];
    hide Join, Components, Identity, Deltas, Closing;
    var rest := if e.specVersion == V22 then [e.costCurrency] + Closing(e) else Closing(e);
    JoinsParts(Identity(e), Deltas(e) + rest);
    JoinsParts(Deltas(e), rest);
    JoinsMore(e.costCurrency, Closing(e));
  }

  /** Row i does not name the row before it, or its hash is not derived from it; v says which of the two, and carries its sequence. */
  ghost predicate IsBroken(derive: Derive, rows: seq<Entry>, i: nat, v: Violation) {
    && i < |rows| && rows[i].sequence == v.row
    && match v
       case LinkMismatch(_) => rows[i].prevLogId != if i == 0 then "" else rows[i - 1].logId
       case HashMismatch(_) => rows[i].hash != derive(rows[i])
  }

  lemma BrokenEarlier(derive: Derive, rows: seq<Entry>, n: nat, v: Violation)
    requires n <= |rows|
    ensures forall i: nat :: IsBroken(derive, rows[..n], i, v) <==> i < n && IsBroken(derive, rows, i, v)
  {
  }

  lemma LastRowIsReported(derive: Derive, rows: seq<Entry>, v: Violation)
    requires rows != []
    ensures var n := |rows| - 1;
            v in RowViolations(derive, PreviousId(rows, n), rows[n]) <==> IsBroken(derive, rows, n, v)
  {
  }

  /** Main result, reports: VerifyChain reports a violation exactly for each row that has it. */
  lemma {:induction false} ViolationsAreExact(derive: Derive, rows: seq<Entry>, v: Violation)
    ensures v in Violations(derive, rows) <==> exists i: nat :: IsBroken(derive, rows, i, v)
  {
    if rows != [] {
      var n := |rows| - 1;
      ViolationsAreExact(derive, rows[..n], v);
      BrokenEarlier(derive, rows, n, v);
      LastRowIsReported(derive, rows, v);
      assert forall i: nat :: IsBroken(derive, rows, i, v) ==> i == n || (i < n && IsBroken(derive, rows[..n], i, v));
      hide IsBroken, RowViolations, PreviousId;
    }
  }
}
