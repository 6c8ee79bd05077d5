/** The resumable re-encryption pass (internal/reencrypt/reencrypt.go). */
module Reencrypt {
  import opened Common
  import opened Sealing

  /** One row of a sealed table: primary key, the value bound into the AAD, the ciphertext or NULL. */
  datatype Row = Row(pk: string, aadId: string, enc: Option<Bytes>)

  datatype Target = Target(table: string, column: string)

  const DEFAULT_TARGETS := [Target("platform_identities", "platform_id"), Target("agent_access_requests", "platform_id")]

  datatype Failure = Sealing(error: CryptoError) | Database

  datatype Stats = Stats(scanned: nat, reencrypted: nat, skipped: nat, nullEnc: nat)
  {
    function Plus(other: Stats): Stats {
      Stats(scanned + other.scanned, reencrypted + other.reencrypted, skipped + other.skipped, nullEnc + other.nullEnc)
    }
  }

  const ZERO := Stats(0, 0, 0, 0)

  type Coded = Result<Bytes, CryptoError>

  /** Sealer.Open, and Open followed by Seal, for the blobs of one AAD column. */
  datatype Codec = Codec(read: Row -> Coded, reseal: Row -> Coded)

  /** The sealer as the pass uses it: the provider's current version and the two operations per column. */
  datatype Sealer = Sealer(current: u32, codec: string -> Codec)

  /** The sealer over a keyring; every rewritten row gets its own random nonce. */
  function NewSealer(aead: Aead, ring: Ring, nonces: string -> Nonce): Sealer
    requires ring.current != 0 ==> ring.current in ring.keys
  {
    Sealer(ring.current, column => Codec(row => Read(aead, ring, column, row),
                                         row => Reseal(aead, ring, nonces, column, row)))
  }

  function Read(aead: Aead, ring: Ring, column: string, row: Row): Coded {
    if row.enc.None? then Err(Malformed) else Open(aead, ring, row.aadId, column, row.enc.value)
  }

  /** Open under the blob's own key, seal under the current one. */
  function Reseal(aead: Aead, ring: Ring, nonces: string -> Nonce, column: string, row: Row): Coded
    requires ring.current != 0 ==> ring.current in ring.keys
  {
    match Read(aead, ring, column, row)
    case Err(e) => Err(e)
    case Ok(plaintext) => Seal(aead, ring, row.aadId, column, plaintext, nonces(row.pk))
  }

  predicate AtVersion(row: Row, v: u32) {
    row.enc.Some? ==> ParseKeyVersion(row.enc.value) == Ok(v)
  }

  /** A readable row has a well-formed header; it can be resealed exactly when the current version fits the header,
    * and then the new blob is at that version and reads the same. */
  ghost predicate Faithful(current: u32, c: Codec) {
    forall row: Row :: row.enc.Some? && c.read(row).Ok? ==>
      && ParseKeyVersion(row.enc.value).Ok?
      && (c.reseal(row).Ok? <==> current <= MAX_KEY_VERSION)
      && (c.reseal(row).Ok? ==>
            var resealed := row.(enc := Some(c.reseal(row).value));
            AtVersion(resealed, current) && c.read(resealed) == c.read(row))
  }

  lemma SealerIsFaithful(aead: Aead, ring: Ring, nonces: string -> Nonce, column: string)
    requires aead.Ideal() && ring.Valid()
    ensures Faithful(ring.current, NewSealer(aead, ring, nonces).codec(column))
  {
    var c := NewSealer(aead, ring, nonces).codec(column);
    forall row: Row | row.enc.Some? && c.read(row).Ok?
      ensures ParseKeyVersion(row.enc.value).Ok?
      ensures c.reseal(row).Ok? <==> ring.current <= MAX_KEY_VERSION
      ensures c.reseal(row).Ok? ==>
                var resealed := row.(enc := Some(c.reseal(row).value));
                AtVersion(resealed, ring.current) && c.read(resealed) == c.read(row)
    {
      ParsersAgree(row.enc.value);
      if ring.current <= MAX_KEY_VERSION {
        SealOpens(aead, ring, row.aadId, column, c.read(row).value, nonces(row.pk));
      }
    }
  }

  // ---- Phase one: the scan ----------------------------------------------------------------------

  datatype Scan = Scan(stats: Stats, pending: seq<Row>, failure: Option<Failure>)

  /** One iteration of the scan loop, skipped once the loop has failed. */
  function ScanRow(s: Scan, current: u32, row: Row): Scan {
    if s.failure.Some? then s else
    var seen := s.stats.(scanned := s.stats.scanned + 1);
    if row.enc.None? then
      s.(stats := seen.(nullEnc := seen.nullEnc + 1))
    else
      match ParseKeyVersion(row.enc.value)
      case Err(e) => s.(stats := seen, failure := Some(Sealing(e)))
      case Ok(v) =>
        if v == current then s.(stats := seen.(skipped := seen.skipped + 1))
        else s.(stats := seen, pending := s.pending + [row])
  }

  function ScanRows(current: u32, rows: seq<Row>): Scan {
    if rows == [] then Scan(ZERO, [], None)
    else ScanRow(ScanRows(current, rows[..|rows| - 1]), current, rows[|rows| - 1])
  }

  // ---- Phase two: the rewrites ------------------------------------------------------------------

  /** The table, the rewrites done, and the failure if any. `quota` is how many updates the database executes
    * before it fails, so that every interruption point is covered. */
  datatype Rewriting = Rewriting(rows: seq<Row>, done: nat, failure: Option<Failure>)

  /** The rows with this key get the new ciphertext. */
  function SetEnc(rows: seq<Row>, pk: string, blob: Bytes): seq<Row> {
    seq(|rows|, i requires 0 <= i < |rows| => if rows[i].pk == pk then rows[i].(enc := Some(blob)) else rows[i])
  }

  /** One iteration of the rewrite loop. */
  function RewriteRow(c: Codec, quota: nat, r: Rewriting, row: Row): Rewriting {
    if r.failure.Some? then r else
    match c.reseal(row)
    case Err(e) => r.(failure := Some(Sealing(e)))
    case Ok(blob) =>
      if r.done >= quota then r.(failure := Some(Database))
      else Rewriting(SetEnc(r.rows, row.pk, blob), r.done + 1, None)
  }

  function RewriteRows(c: Codec, quota: nat, rows: seq<Row>, pending: seq<Row>): Rewriting {
    if pending == [] then Rewriting(rows, 0, None)
    else RewriteRow(c, quota, RewriteRows(c, quota, rows, pending[..|pending| - 1]), pending[|pending| - 1])
  }

  datatype Pass = Pass(rows: seq<Row>, stats: Stats, failure: Option<Failure>)

  /** runOne on values: no rewrite starts unless the whole scan succeeded. */
  function OnePass(c: Codec, current: u32, quota: nat, rows: seq<Row>): Pass {
    var scan := ScanRows(current, rows);
    if scan.failure.Some? then Pass(rows, scan.stats, scan.failure)
    else
      var r := RewriteRows(c, quota, rows, scan.pending);
      Pass(r.rows, scan.stats.(reencrypted := r.done), r.failure)
  }

  // ---- What a pass does to a readable table -----------------------------------------------------

  predicate DistinctKeys(rows: seq<Row>) {
    forall i, j :: 0 <= i < j < |rows| ==> rows[i].pk != rows[j].pk
  }

  predicate Reads(c: Codec, row: Row, plain: map<string, Bytes>) {
    row.enc.Some? ==> row.pk in plain && c.read(row) == Ok(plain[row.pk])
  }

  /** Primary keys are unique, and every non-NULL blob opens under its row's AAD to the recorded plaintext. */
  ghost predicate Readable(c: Codec, rows: seq<Row>, plain: map<string, Bytes>) {
    DistinctKeys(rows) && forall i :: 0 <= i < |rows| ==> Reads(c, rows[i], plain)
  }

  predicate AllAtVersion(rows: seq<Row>, v: u32) {
    forall i :: 0 <= i < |rows| ==> AtVersion(rows[i], v)
  }

  /** rows' has the same rows with the same NULLs; only ciphertexts may differ. */
  ghost predicate SameButCiphertext(rows: seq<Row>, rows': seq<Row>) {
    && |rows'| == |rows|
    && forall i :: 0 <= i < |rows| ==>
         rows'[i].pk == rows[i].pk && rows'[i].aadId == rows[i].aadId && (rows'[i].enc.Some? <==> rows[i].enc.Some?)
  }

  /** The places of the rows with no ciphertext. */
  ghost function NullRows(rows: seq<Row>): set<nat> {
    set i: nat | i < |rows| && rows[i].enc.None?
  }

  lemma NullRowsGrow(rows: seq<Row>, row: Row)
    ensures |NullRows(rows + [row])| == |NullRows(rows)| + if row.enc.None? then 1 else 0
  {
    assert NullRows(rows + [row]) == NullRows(rows) + if row.enc.None? then {|rows|} else {};
  }

  lemma {:induction false} ScanSortsRows(c: Codec, current: u32, rows: seq<Row>, plain: map<string, Bytes>)
    requires Faithful(current, c) && Readable(c, rows, plain)
    ensures var scan := ScanRows(current, rows);
            && scan.failure.None? && scan.stats.scanned == |rows| && scan.stats.reencrypted == 0
            && scan.stats.skipped + scan.stats.nullEnc + |scan.pending| == |rows|
            && (forall row :: row in scan.pending <==> row in rows && !AtVersion(row, current))
            && DistinctKeys(scan.pending)
            && (AllAtVersion(rows, current) ==> scan.pending == [])
            && scan.stats.nullEnc == |NullRows(rows)|
  {
    if rows != [] {
      var n := |rows| - 1;
      ScanSortsRows(c, current, rows[..n], plain);
      assert rows == rows[..n] + [rows[n]];
      NullRowsGrow(rows[..n], rows[n]);
      assert Reads(c, rows[n], plain);
      assert forall row :: row in rows[..n] ==> row.pk != rows[n].pk;
    }
  }

  /** rows' is rows with exactly the rows in `rewritten` resealed. */
  ghost predicate RewroteThese(c: Codec, rows: seq<Row>, rows': seq<Row>, rewritten: seq<Row>) {
    && |rows'| == |rows|
    && forall i :: 0 <= i < |rows| ==>
         if rows[i] in rewritten
         then c.reseal(rows[i]).Ok? && rows'[i] == rows[i].(enc := Some(c.reseal(rows[i]).value))
         else rows'[i] == rows[i]
  }

  lemma RewroteOneMore(c: Codec, rows: seq<Row>, rows': seq<Row>, rewritten: seq<Row>, row: Row)
    requires RewroteThese(c, rows, rows', rewritten) && DistinctKeys(rows)
    requires row in rows && row !in rewritten && c.reseal(row).Ok?
    ensures RewroteThese(c, rows, SetEnc(rows', row.pk, c.reseal(row).value), rewritten + [row])
  {
    var rows'' := SetEnc(rows', row.pk, c.reseal(row).value);
    var k :| 0 <= k < |rows| && rows[k] == row;
    forall i | 0 <= i < |rows|
      ensures if rows[i] in rewritten + [row]
              then c.reseal(rows[i]).Ok? && rows''[i] == rows[i].(enc := Some(c.reseal(rows[i]).value))
              else rows''[i] == rows[i]
    {
      assert i != k ==> rows[i].pk != row.pk;
    }
  }

  /** A pending row can be resealed exactly when the current version fits the header. */
  ghost predicate CanReseal(c: Codec, current: u32, rows: seq<Row>, row: Row) {
    row in rows && (c.reseal(row).Ok? <==> current <= MAX_KEY_VERSION)
  }

  lemma {:induction false} RewritesAreExact(c: Codec, current: u32, quota: nat, rows: seq<Row>, pending: seq<Row>)
    requires DistinctKeys(rows) && DistinctKeys(pending)
    requires forall i :: 0 <= i < |pending| ==> CanReseal(c, current, rows, pending[i])
    ensures var r := RewriteRows(c, quota, rows, pending);
            && r.done <= |pending| && r.done <= quota
            && RewroteThese(c, rows, r.rows, pending[..r.done])
            && (r.failure.None? <==> r.done == |pending|)
            && (r.failure.Some? ==> r.done == quota || current > MAX_KEY_VERSION)
  {
    if pending != [] {
      var n := |pending| - 1;
      RewritesAreExact(c, current, quota, rows, pending[..n]);
      var before := RewriteRows(c, quota, rows, pending[..n]);
      assert pending[..n][..before.done] == pending[..before.done];
      if before.failure.None? {
        assert CanReseal(c, current, rows, pending[n]);
        assert pending[..n + 1] == pending[..n] + [pending[n]] == pending;
        if c.reseal(pending[n]).Ok? && before.done < quota {
          RewroteOneMore(c, rows, before.rows, pending[..n], pending[n]);
        }
      }
    }
  }

  /** What one pass over one table does, wherever it was interrupted: the data is unchanged; without a failure every
    * ciphertext is at the current version and the counts add up; a failure needs an exhausted database or a key
    * version that no longer fits the header; and a table already current is left alone. */
  ghost predicate PassIsSafe(c: Codec, current: u32, quota: nat, rows: seq<Row>, plain: map<string, Bytes>, pass: Pass) {
    && SameButCiphertext(rows, pass.rows) && Readable(c, pass.rows, plain)
    && pass.stats.reencrypted <= quota && pass.stats.reencrypted <= |rows|
    && (pass.failure.None? ==>
          && AllAtVersion(pass.rows, current)
          && pass.stats.scanned == |rows|
          && pass.stats.scanned == pass.stats.reencrypted + pass.stats.skipped + pass.stats.nullEnc)
    && (pass.failure.Some? ==> pass.stats.reencrypted == quota || current > MAX_KEY_VERSION)
    && (AllAtVersion(rows, current) ==>
          pass.rows == rows && pass.stats.reencrypted == 0 && pass.failure.None?)
  }

  /** Main result of one pass over one table. */
  lemma PassKeepsData(c: Codec, current: u32, quota: nat, rows: seq<Row>, plain: map<string, Bytes>)
    requires Faithful(current, c) && Readable(c, rows, plain)
    ensures PassIsSafe(c, current, quota, rows, plain, OnePass(c, current, quota, rows))
  {
    ScanSortsRows(c, current, rows, plain);
    var pending := ScanRows(current, rows).pending;
    forall i | 0 <= i < |pending| ensures CanReseal(c, current, rows, pending[i]) {
      assert pending[i] in pending;
      var k :| 0 <= k < |rows| && rows[k] == pending[i];
      assert Reads(c, rows[k], plain);
    }
    RewritesAreExact(c, current, quota, rows, pending);
    var r := RewriteRows(c, quota, rows, pending);
    assert pending[..|pending|] == pending;
    forall i | 0 <= i < |rows|
      ensures r.rows[i].pk == rows[i].pk && r.rows[i].aadId == rows[i].aadId
      ensures r.rows[i].enc.Some? <==> rows[i].enc.Some?
      ensures Reads(c, r.rows[i], plain)
      ensures r.done == |pending| ==> AtVersion(r.rows[i], current)
    {
      assert Reads(c, rows[i], plain);
    }
  }

  // ---- All targets ------------------------------------------------------------------------------

  type Tables = map<string, seq<Row>>

  datatype Report = Report(tables: Tables, stats: Stats, perTable: map<string, Stats>, quota: nat, failure: Option<Failure>)

  /** One iteration of RunTargets, skipped once a target has failed. */
  function RunTarget(s: Sealer, r: Report, target: Target): Report {
    if r.failure.Some? then r
    else if target.table !in r.tables then r.(perTable := r.perTable[target.table := ZERO], failure := Some(Database))
    else
      Merge(r, target.table, OnePass(s.codec(target.column), s.current, r.quota, r.tables[target.table]))
  }

  function Merge(r: Report, table: string, pass: Pass): Report {
    Report(r.tables[table := pass.rows], r.stats.Plus(pass.stats), r.perTable[table := pass.stats],
           Left(r.quota, pass.stats.reencrypted), pass.failure)
  }

  function Left(quota: nat, used: nat): nat {
    if used <= quota then quota - used else 0
  }

  /** RunTargets on values; `quota` counts the updates the database will execute over the whole run. */
  function AllPasses(s: Sealer, quota: nat, tables: Tables, targets: seq<Target>): Report {
    if s.current == 0 then Report(tables, ZERO, map[], quota, Some(Sealing(NotInitialized)))
    else if targets == [] then Report(tables, ZERO, map[], quota, None)
    else RunTarget(s, AllPasses(s, quota, tables, targets[..|targets| - 1]), targets[|targets| - 1])
  }

  /** Recorded plaintexts per table and primary key. */
  type Plain = map<string, map<string, Bytes>>

  /** Which AAD column each table's blobs were sealed under. */
  type Schema = map<string, string>

  ghost predicate TableReadable(s: Sealer, schema: Schema, tables: Tables, plain: Plain, t: string)
    requires t in tables
  {
    t in schema && t in plain && Readable(s.codec(schema[t]), tables[t], plain[t])
  }

  ghost predicate AllReadable(s: Sealer, schema: Schema, tables: Tables, plain: Plain) {
    forall t :: t in tables ==> TableReadable(s, schema, tables, plain, t)
  }

  ghost predicate TargetsFollow(schema: Schema, tables: Tables, targets: seq<Target>) {
    forall target :: target in targets ==>
      target.table in tables && target.table in schema && schema[target.table] == target.column
  }

  ghost predicate TargetsCurrent(tables: Tables, targets: seq<Target>, v: u32) {
    forall target :: target in targets ==> target.table in tables && AllAtVersion(tables[target.table], v)
  }

  ghost predicate SealerFaithful(s: Sealer) {
    s.current != 0 && forall column :: Faithful(s.current, s.codec(column))
  }

  /** What a run does, wherever it stopped. */
  ghost predicate RunIsSafe(s: Sealer, quota: nat, schema: Schema, tables: Tables, targets: seq<Target>, plain: Plain, r: Report) {
    && r.tables.Keys == tables.Keys && AllReadable(s, schema, r.tables, plain)
    && (forall t :: t in tables ==> SameButCiphertext(tables[t], r.tables[t]))
    && r.stats.reencrypted + r.quota == quota
    && (r.failure.None? ==>
          && TargetsCurrent(r.tables, targets, s.current)
          && r.stats.scanned == r.stats.reencrypted + r.stats.skipped + r.stats.nullEnc)
    && (r.failure.Some? ==> r.quota == 0 || s.current > MAX_KEY_VERSION)
    && (TargetsCurrent(tables, targets, s.current) ==>
          r.tables == tables && r.stats.reencrypted == 0 && r.failure.None?)
  }

  lemma MergeKeepsReadable(s: Sealer, schema: Schema, plain: Plain, r: Report, target: Target, pass: Pass)
    requires AllReadable(s, schema, r.tables, plain) && TargetsFollow(schema, r.tables, [target])
    requires Readable(s.codec(target.column), pass.rows, plain[target.table])
    ensures AllReadable(s, schema, Merge(r, target.table, pass).tables, plain)
  {
    assert target in [target];
    var tables' := Merge(r, target.table, pass).tables;
    forall u | u in tables' ensures TableReadable(s, schema, tables', plain, u) {
      assert TableReadable(s, schema, r.tables, plain, u);
    }
  }

  lemma MergeIsCurrent(tables: Tables, earlier: seq<Target>, r: Report, target: Target, pass: Pass, v: u32)
    requires TargetsCurrent(r.tables, earlier, v) && target.table in r.tables && AllAtVersion(pass.rows, v)
    ensures TargetsCurrent(Merge(r, target.table, pass).tables, earlier + [target], v)
  {
  }

  lemma MergeIsSafe(s: Sealer, quota: nat, schema: Schema, tables: Tables, earlier: seq<Target>, plain: Plain,
                    r: Report, target: Target, pass: Pass)
    requires RunIsSafe(s, quota, schema, tables, earlier, plain, r) && r.failure.None?
    requires TargetsFollow(schema, tables, [target]) && target in [target] && target.table in plain
    requires PassIsSafe(s.codec(target.column), s.current, r.quota, r.tables[target.table], plain[target.table], pass)
    ensures RunIsSafe(s, quota, schema, tables, earlier + [target], plain, Merge(r, target.table, pass))
  {
    var r' := Merge(r, target.table, pass);
    MergeKeepsReadable(s, schema, plain, r, target, pass);
    hide AllReadable, Readable, TargetsFollow;
    assert forall t :: t in tables ==> SameButCiphertext(tables[t], r'.tables[t]);
    if r'.failure.None? {
      MergeIsCurrent(tables, earlier, r, target, pass, s.current);
    }
    assert TargetsCurrent(tables, earlier + [target], s.current) ==> r'.tables == tables && pass.stats.reencrypted == 0 by {
      assert target in earlier + [target];
      assert forall e :: e in earlier ==> e in earlier + [target];
    }
  }

  lemma TargetIsSafe(s: Sealer, quota: nat, schema: Schema, tables: Tables, earlier: seq<Target>, plain: Plain,
                     r: Report, target: Target)
    requires SealerFaithful(s) && RunIsSafe(s, quota, schema, tables, earlier, plain, r) && r.failure.None?
    requires TargetsFollow(schema, tables, [target])
    ensures RunIsSafe(s, quota, schema, tables, earlier + [target], plain, RunTarget(s, r, target))
  {
    assert target in [target];
    assert TableReadable(s, schema, r.tables, plain, target.table);
    PassKeepsData(s.codec(target.column), s.current, r.quota, r.tables[target.table], plain[target.table]);
    MergeIsSafe(s, quota, schema, tables, earlier, plain, r, target,
                OnePass(s.codec(target.column), s.current, r.quota, r.tables[target.table]));
  }

  /** Main result of a whole run, wherever it stopped: every table stays readable with the same plaintexts; an
    * error-free run leaves every target at the current version with Scanned = Reencrypted + Skipped + NullEnc; and a
    * run over current tables rewrites nothing, so a second run is a no-op. */
  lemma {:induction false} RunKeepsData(s: Sealer, quota: nat, schema: Schema, tables: Tables, targets: seq<Target>, plain: Plain)
    requires SealerFaithful(s) && AllReadable(s, schema, tables, plain) && TargetsFollow(schema, tables, targets)
    ensures RunIsSafe(s, quota, schema, tables, targets, plain, AllPasses(s, quota, tables, targets))
  {
    if targets != [] {
      var n := |targets| - 1;
      RunKeepsData(s, quota, schema, tables, targets[..n], plain);
      var before := AllPasses(s, quota, tables, targets[..n]);
      assert targets == targets[..n] + [targets[n]];
      if before.failure.None? {
        TargetIsSafe(s, quota, schema, tables, targets[..n], plain, before, targets[n]);
      } else {
        assert !TargetsCurrent(tables, targets, s.current) by {
          assert forall e :: e in targets[..n] ==> e in targets;
        }
      }
    }
  }

  /** The command runs over the two tables that seal platform ids; without a failure both are at the current version. */
  lemma DefaultRunIsComplete(s: Sealer, quota: nat, tables: Tables, plain: Plain)
    requires var schema := map["platform_identities" := "platform_id", "agent_access_requests" := "platform_id"];
             SealerFaithful(s) && tables.Keys == schema.Keys && AllReadable(s, schema, tables, plain)
    ensures var r := AllPasses(s, quota, tables, DEFAULT_TARGETS);
            && r.tables.Keys == {"platform_identities", "agent_access_requests"}
            && (r.failure.None? ==> AllAtVersion(r.tables["platform_identities"], s.current)
                                    && AllAtVersion(r.tables["agent_access_requests"], s.current))
  {
    var schema := map["platform_identities" := "platform_id", "agent_access_requests" := "platform_id"];
    RunKeepsData(s, quota, schema, tables, DEFAULT_TARGETS, plain);
    hide AllPasses, AllAtVersion, AllReadable;
    assert DEFAULT_TARGETS[0].table == "platform_identities" && DEFAULT_TARGETS[1].table == "agent_access_requests";
  }

  // ---- What the counts say ------------------------------------------------------------------------

  ghost function RowsAt(rows: seq<Row>, current: u32): set<nat> {
    set i: nat | i < |rows| && rows[i].enc.Some? && AtVersion(rows[i], current)
  }

  ghost function RowsBehind(rows: seq<Row>, current: u32): set<nat> {
    set i: nat | i < |rows| && !AtVersion(rows[i], current)
  }

  lemma RowsAtGrow(rows: seq<Row>, row: Row, current: u32)
    ensures |RowsAt(rows + [row], current)| == |RowsAt(rows, current)| + if row.enc.Some? && AtVersion(row, current) then 1 else 0
  {
    hide AtVersion;
    assert |rows| !in RowsAt(rows, current);
    assert RowsAt(rows + [row], current) == RowsAt(rows, current) + if row.enc.Some? && AtVersion(row, current) then {|rows|} else {};
  }

  lemma RowsBehindGrow(rows: seq<Row>, row: Row, current: u32)
    ensures |RowsBehind(rows + [row], current)| == |RowsBehind(rows, current)| + if AtVersion(row, current) then 0 else 1
  {
    hide AtVersion;
    assert |rows| !in RowsBehind(rows, current);
    assert RowsBehind(rows + [row], current) == RowsBehind(rows, current) + if AtVersion(row, current) then {} else {|rows|};
  }

  lemma {:induction false} RowsSplit(rows: seq<Row>, current: u32)
    ensures |NullRows(rows)| + |RowsAt(rows, current)| + |RowsBehind(rows, current)| == |rows|
  {
    if rows != [] {
      var n := |rows| - 1;
      RowsSplit(rows[..n], current);
      assert rows == rows[..n] + [rows[n]];
      NullRowsGrow(rows[..n], rows[n]);
      RowsAtGrow(rows[..n], rows[n], current);
      RowsBehindGrow(rows[..n], rows[n], current);
      assert rows[n].enc.None? ==> AtVersion(rows[n], current);
      hide NullRows, RowsAt, RowsBehind, AtVersion;
    }
  }

  /** Main result, counts: a pass that does not fail scans every row, skips those at the current version, rewrites those behind it,
    * and counts those without a ciphertext. */
  lemma PassCounts(c: Codec, current: u32, quota: nat, rows: seq<Row>, plain: map<string, Bytes>)
    requires Faithful(current, c) && Readable(c, rows, plain) && OnePass(c, current, quota, rows).failure.None?
    ensures OnePass(c, current, quota, rows).stats
         == Stats(|rows|, |RowsBehind(rows, current)|, |RowsAt(rows, current)|, |NullRows(rows)|)
  {
    PassKeepsData(c, current, quota, rows, plain);
    ScanSortsRows(c, current, rows, plain);
    assert forall i :: 0 <= i < |rows| ==> Reads(c, rows[i], plain);
    ScanSortsReadable(current, rows);
    RowsSplit(rows, current);
    hide Faithful, Readable, ScanRows, RewriteRows;
  }

  /** A scan stops at the first row whose version cannot be read: it is counted as scanned, and the rows before it were sorted as
    * ever. Nothing is rewritten then. */
  lemma {:induction false} ScanStopsAt(c: Codec, current: u32, quota: nat, rows: seq<Row>, k: nat)
    requires k < |rows| && rows[k].enc.Some? && ParseKeyVersion(rows[k].enc.value).Err?
    requires forall i :: 0 <= i < k && rows[i].enc.Some? ==> ParseKeyVersion(rows[i].enc.value).Ok?
    ensures OnePass(c, current, quota, rows)
         == Pass(rows, Stats(k + 1, 0, |RowsAt(rows[..k], current)|, |NullRows(rows[..k])|),
                 Some(Sealing(ParseKeyVersion(rows[k].enc.value).error)))
  {
    ScanSortsReadable(current, rows[..k]);
    assert rows[..k + 1][..k] == rows[..k];
    ScanFailureSticks(current, rows, k + 1);
    hide RowsAt, NullRows, ParseKeyVersion;
  }

  lemma {:induction false} ScanSortsReadable(current: u32, rows: seq<Row>)
    requires forall i :: 0 <= i < |rows| && rows[i].enc.Some? ==> ParseKeyVersion(rows[i].enc.value).Ok?
    ensures ScanRows(current, rows).failure.None?
         && ScanRows(current, rows).stats == Stats(|rows|, 0, |RowsAt(rows, current)|, |NullRows(rows)|)
  {
    if rows != [] {
      var n := |rows| - 1;
      ScanSortsReadable(current, rows[..n]);
      assert rows == rows[..n] + [rows[n]];
      RowsAtGrow(rows[..n], rows[n], current);
      NullRowsGrow(rows[..n], rows[n]);
      hide RowsAt, NullRows, ParseKeyVersion;
    }
  }

  /** A column of the reported tables, added up over the targets. */
  ghost function ColumnSum(targets: seq<Target>, perTable: map<string, Stats>, column: Stats -> nat): nat {
    if targets == [] then 0
    else
      var n := |targets| - 1;
      ColumnSum(targets[..n], perTable, column) + if targets[n].table in perTable then column(perTable[targets[n].table]) else 0
  }

  lemma {:induction false} OtherTablesDoNotCount(targets: seq<Target>, perTable: map<string, Stats>, table: string, stats: Stats,
                                                 column: Stats -> nat)
    requires forall target :: target in targets ==> target.table != table
    ensures ColumnSum(targets, perTable[table := stats], column) == ColumnSum(targets, perTable, column)
  {
    if targets != [] {
      OtherTablesDoNotCount(targets[..|targets| - 1], perTable, table, stats, column);
    }
  }

  /** A column that adds up with the statistics. */
  ghost predicate Adds(column: Stats -> nat) {
    column(ZERO) == 0 && forall x: Stats, y: Stats :: column(x.Plus(y)) == column(x) + column(y)
  }

  /** The reported tables are targets, all of them unless the run failed, and the total of the column is theirs. */
  ghost predicate IsTotal(targets: seq<Target>, r: Report, column: Stats -> nat) {
    && (forall table :: table in r.perTable ==> exists target :: target in targets && target.table == table)
    && (r.failure.None? ==> forall target :: target in targets ==> target.table in r.perTable)
    && column(r.stats) == ColumnSum(targets, r.perTable, column)
  }

  lemma OneMoreColumn(targets: seq<Target>, n: nat, perTable: map<string, Stats>, stats: Stats, column: Stats -> nat)
    requires |targets| == n + 1 && forall target :: target in targets[..n] ==> target.table != targets[n].table
    ensures ColumnSum(targets, perTable[targets[n].table := stats], column) == ColumnSum(targets[..n], perTable, column) + column(stats)
    ensures targets[n].table !in perTable ==> ColumnSum(targets, perTable, column) == ColumnSum(targets[..n], perTable, column)
  {
    OtherTablesDoNotCount(targets[..n], perTable, targets[n].table, stats, column);
  }

  lemma OneMoreTarget(s: Sealer, before: Report, targets: seq<Target>, n: nat, column: Stats -> nat)
    requires |targets| == n + 1 && IsTotal(targets[..n], before, column) && Adds(column)
    requires forall target :: target in targets[..n] ==> target.table != targets[n].table
    ensures IsTotal(targets, RunTarget(s, before, targets[n]), column)
  {
    var after := RunTarget(s, before, targets[n]);
    assert targets == targets[..n] + [targets[n]] && targets[n].table !in before.perTable;
    OneMoreColumn(targets, n, before.perTable, if before.failure.None? then after.perTable[targets[n].table] else ZERO, column);
    hide OnePass, ColumnSum;
  }

  lemma {:induction false} ColumnAddsUp(s: Sealer, quota: nat, tables: Tables, targets: seq<Target>, column: Stats -> nat)
    requires s.current != 0 && Adds(column) && forall i, j :: 0 <= i < j < |targets| ==> targets[i].table != targets[j].table
    ensures IsTotal(targets, AllPasses(s, quota, tables, targets), column)
  {
    hide RunTarget;
    if targets != [] {
      var n := |targets| - 1;
      ColumnAddsUp(s, quota, tables, targets[..n], column);
      OneMoreTarget(s, AllPasses(s, quota, tables, targets[..n]), targets, n, column);
    }
  }

  /** Main result, totals: over distinct tables each total is the sum of its column over the tables that were reported, wherever the
    * run stopped; without a failure every target is reported. */
  lemma TotalsAddUp(s: Sealer, quota: nat, tables: Tables, targets: seq<Target>)
    requires s.current != 0 && forall i, j :: 0 <= i < j < |targets| ==> targets[i].table != targets[j].table
    ensures var r := AllPasses(s, quota, tables, targets);
            && IsTotal(targets, r, (ts: Stats) => ts.scanned) && IsTotal(targets, r, (ts: Stats) => ts.reencrypted)
            && IsTotal(targets, r, (ts: Stats) => ts.skipped) && IsTotal(targets, r, (ts: Stats) => ts.nullEnc)
  {
    hide AllPasses, IsTotal;
    ColumnAddsUp(s, quota, tables, targets, (ts: Stats) => ts.scanned);
    ColumnAddsUp(s, quota, tables, targets, (ts: Stats) => ts.reencrypted);
    ColumnAddsUp(s, quota, tables, targets, (ts: Stats) => ts.skipped);
    ColumnAddsUp(s, quota, tables, targets, (ts: Stats) => ts.nullEnc);
  }

  // ---- The imperative pass ----------------------------------------------------------------------

  /** The database the pass works on. */
  class Store {
    var tables: Tables
    /** Updates left before the database fails. */
    var quota: nat

    constructor (tables: Tables, quota: nat)
      ensures this.tables == tables && this.quota == quota
    {
      this.tables, this.quota := tables, quota;
    }

    /** The read cursor of runOne. */
    method ScanTable(current: u32, rows: seq<Row>)
      returns (stats: Stats, toRewrite: seq<Row>, failure: Option<Failure>)
      ensures Scan(stats, toRewrite, failure) == ScanRows(current, rows)
    {
      stats, toRewrite, failure := ZERO, [], None;
      for i := 0 to |rows|
        invariant failure.None? && Scan(stats, toRewrite, None) == ScanRows(current, rows[..i])
      {
        assert rows[..i + 1][..i] == rows[..i];
        ScanFailureSticks(current, rows, i + 1);
        stats := stats.(scanned := stats.scanned + 1);
        if rows[i].enc.None? {
          stats := stats.(nullEnc := stats.nullEnc + 1);
          continue;
        }
        var v := ParseKeyVersion(rows[i].enc.value);
        if v.Err? {
          failure := Some(Sealing(v.error));
          return;
        }
        if v.value == current {
          stats := stats.(skipped := stats.skipped + 1);
          continue;
        }
        toRewrite := toRewrite + [rows[i]];
      }
      assert rows[..|rows|] == rows;
    }

    /** The update loop of runOne. */
    method RewritePending(c: Codec, table: string, toRewrite: seq<Row>) returns (done: nat, failure: Option<Failure>)
      requires table in tables
      modifies this
      ensures table in tables && tables == old(tables)[table := tables[table]]
      ensures Rewriting(tables[table], done, failure) == RewriteRows(c, old(quota), old(tables[table]), toRewrite)
      ensures quota + done == old(quota)
    {
      done, failure := 0, None;
      ghost var rows, available := tables[table], quota;
      assert tables == tables[table := rows];
      for i := 0 to |toRewrite|
        invariant failure.None? && table in tables && tables == old(tables)[table := tables[table]]
        invariant quota + done == available
        invariant Rewriting(tables[table], done, None) == RewriteRows(c, available, rows, toRewrite[..i])
      {
        assert toRewrite[..i + 1][..i] == toRewrite[..i];
        RewriteFailureSticks(c, available, rows, toRewrite, i + 1);
        var blob := c.reseal(toRewrite[i]);
        if blob.Err? {
          failure := Some(Sealing(blob.error));
          return;
        }
        if quota == 0 {
          failure := Some(Database);
          return;
        }
        quota := quota - 1;
        tables := tables[table := SetEnc(tables[table], toRewrite[i].pk, blob.value)];
        done := done + 1;
      }
      assert toRewrite[..|toRewrite|] == toRewrite;
    }

    method RunOne(s: Sealer, target: Target) returns (stats: Stats, failure: Option<Failure>)
      modifies this
      ensures old(target.table in tables) ==>
                var pass := OnePass(s.codec(target.column), s.current, old(quota), old(tables[target.table]));
                && tables == old(tables)[target.table := pass.rows] && stats == pass.stats && failure == pass.failure
                && quota == Left(old(quota), pass.stats.reencrypted)
      ensures old(target.table !in tables) ==>
                stats == ZERO && failure == Some(Database) && tables == old(tables) && quota == old(quota)
    {
      if target.table !in tables {
        return ZERO, Some(Database);
      }
      var toRewrite;
      stats, toRewrite, failure := ScanTable(s.current, tables[target.table]);
      if failure.Some? {
        assert tables == tables[target.table := tables[target.table]];
        NothingRewrittenYet(s.current, tables[target.table]);
        return;
      }
      var done;
      done, failure := RewritePending(s.codec(target.column), target.table, toRewrite);
      stats := stats.(reencrypted := done);
    }

    method RunTargets(s: Sealer, targets: seq<Target>)
      returns (stats: Stats, perTable: map<string, Stats>, failure: Option<Failure>)
      modifies this
      ensures Report(tables, stats, perTable, quota, failure) == AllPasses(s, old(quota), old(tables), targets)
    {
      hide OnePass;
      stats, perTable, failure := ZERO, map[], None;
      if s.current == 0 {
        return ZERO, map[], Some(Sealing(NotInitialized));
      }
      for i := 0 to |targets|
        invariant failure.None?
        invariant Report(tables, stats, perTable, quota, failure)
                  == AllPasses(s, old(quota), old(tables), targets[..i])
      {
        assert targets[..i + 1][..i] == targets[..i];
        TargetFailureSticks(s, old(quota), old(tables), targets, i + 1);
        var ts;
        ts, failure := RunOne(s, targets[i]);
        stats := stats.Plus(ts);
        perTable := perTable[targets[i].table := ts];
        if failure.Some? {
          return;
        }
      }
      assert targets[..|targets|] == targets;
    }
  }

  lemma {:induction false} NothingRewrittenYet(current: u32, rows: seq<Row>)
    ensures ScanRows(current, rows).stats.reencrypted == 0
  {
    if rows != [] {
      NothingRewrittenYet(current, rows[..|rows| - 1]);
    }
  }

  lemma {:induction false} ScanFailureSticks(current: u32, rows: seq<Row>, n: nat)
    requires n <= |rows|
    ensures ScanRows(current, rows[..n]).failure.Some? ==> ScanRows(current, rows) == ScanRows(current, rows[..n])
    decreases |rows| - n
  {
    if n < |rows| {
      assert rows[..n + 1][..n] == rows[..n];
      ScanFailureSticks(current, rows, n + 1);
    } else {
      assert rows[..n] == rows;
    }
  }

  lemma {:induction false} RewriteFailureSticks(c: Codec, quota: nat, rows: seq<Row>, pending: seq<Row>, n: nat)
    requires n <= |pending|
    ensures RewriteRows(c, quota, rows, pending[..n]).failure.Some? ==>
              RewriteRows(c, quota, rows, pending) == RewriteRows(c, quota, rows, pending[..n])
    decreases |pending| - n
  {
    if n < |pending| {
      assert pending[..n + 1][..n] == pending[..n];
      RewriteFailureSticks(c, quota, rows, pending, n + 1);
    } else {
      assert pending[..n] == pending;
    }
  }

  lemma {:induction false} TargetFailureSticks(s: Sealer, quota: nat, tables: Tables, targets: seq<Target>, n: nat)
    requires s.current != 0 && n <= |targets|
    ensures AllPasses(s, quota, tables, targets[..n]).failure.Some? ==>
              AllPasses(s, quota, tables, targets) == AllPasses(s, quota, tables, targets[..n])
    decreases |targets| - n
  {
    if n < |targets| {
      assert targets[..n + 1][..n] == targets[..n];
      TargetFailureSticks(s, quota, tables, targets, n + 1);
    } else {
      assert targets[..n] == targets;
    }
  }
}
