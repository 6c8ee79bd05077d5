/** Sealed data over time: writes by the running server, key rotations and re-encryption runs by commands in other processes,
  * and restarts, in any order. The server's keyring is as old as its start; the directory has the rest. */
module Vault {
  import opened Common
  import opened Sealing
  import opened Reencrypt

  datatype Vault = Vault(ring: Ring, disk: map<u32, Key>, tables: Tables)

  datatype Op =
    | Write(table: string, row: Row, plaintext: Bytes, nonce: Nonce, sealerOn: bool)
    | Rotate(random: Key, closes: bool)
    | RotateElsewhere(random: Key, closes: bool)
    | Reencrypt(targets: seq<Target>, quota: nat, nonces: string -> Nonce)
    | Restart

  predicate HasKey(rows: seq<Row>, pk: string) {
    exists i :: 0 <= i < |rows| && rows[i].pk == pk
  }

  /** The row a write inserts: none for a known pk, one with NULL ciphertext without a sealer, none when sealing
    * fails. */
  function Inserted(aead: Aead, schema: Schema, v: Vault, op: Op): Option<Row>
    requires op.Write? && v.ring.Valid()
  {
    if op.table !in v.tables || op.table !in schema || HasKey(v.tables[op.table], op.row.pk) then None
    else if !op.sealerOn then Some(op.row.(enc := None))
    else
      match Seal(aead, v.ring, op.row.aadId, schema[op.table], op.plaintext, op.nonce)
      case Err(_) => None
      case Ok(blob) => Some(op.row.(enc := Some(blob)))
  }

  lemma {:induction false} LargestExists(keys: set<u32>) returns (v: u32)
    requires keys != {}
    ensures v in keys && forall w :: w in keys ==> w <= v
  {
    v :| v in keys;
    var rest := keys - {v};
    if rest != {} {
      var w := LargestExists(rest);
      assert forall k :: k in keys ==> k == v || k in rest;
      v := if w > v then w else v;
    } else {
      assert forall k :: k in keys ==> k == v || k in rest;
    }
  }

  /** A directory a provider can be opened over. */
  ghost predicate IsKeyring(disk: map<u32, Key>) {
    disk != map[] && 0 !in disk
  }

  lemma LargestKeyExists(disk: map<u32, Key>)
    requires IsKeyring(disk)
    ensures exists v :: IsLargest(v, disk)
  {
    var v := LargestExists(disk.Keys);
    assert IsLargest(v, disk);
  }

  /** A fresh process over the directory: every file is a key, the largest version is current. */
  ghost function Loaded(disk: map<u32, Key>): (ring: Ring)
    requires IsKeyring(disk)
    ensures ring.Valid() && ring.keys == disk && IsLargest(ring.current, disk)
  {
    LargestKeyExists(disk);
    var v :| IsLargest(v, disk);
    Ring(disk, v)
  }

  /** The server's keyring is valid and part of the directory. */
  ghost predicate IsServed(v: Vault) {
    v.ring.Valid() && IsKeyring(v.disk) && forall k :: k in v.ring.keys ==> k in v.disk && v.disk[k] == v.ring.keys[k]
  }

  /** The directory after a rotation of this ring: the new file is there even if closing it fails. */
  function Written(ring: Ring, disk: map<u32, Key>, random: Key): map<u32, Key> {
    if Rotated(ring, disk, random).Some? then disk[ring.current + 1 := random] else disk
  }

  ghost predicate Steps(aead: Aead, schema: Schema, v: Vault, op: Op, v': Vault)
    requires IsServed(v)
  {
    match op
    case Write(table, _, _, _, _) =>
      var row := Inserted(aead, schema, v, op);
      v' == if row.None? then v else v.(tables := v.tables[table := v.tables[table] + [row.value]])
    case Rotate(random, closes) =>
      var ring := Rotated(v.ring, v.disk, random);
      v' == Vault(if ring.Some? && closes then ring.value else v.ring, Written(v.ring, v.disk, random), v.tables)
    case RotateElsewhere(random, _) =>
      v' == v.(disk := Written(Loaded(v.disk), v.disk, random))
    case Reencrypt(targets, quota, nonces) =>
      v' == v.(tables := AllPasses(NewSealer(aead, Loaded(v.disk), nonces), quota, v.tables, targets).tables)
    case Restart =>
      v' == v.(ring := Loaded(v.disk))
  }

  /** The plaintext of every row ever written, as its write gave it. */
  function Record(aead: Aead, schema: Schema, v: Vault, plain: Plain, op: Op): Plain
    requires v.ring.Valid()
  {
    if op.Write? && op.table in plain && Inserted(aead, schema, v, op).Some?
    then plain[op.table := plain[op.table][op.row.pk := op.plaintext]]
    else plain
  }

  /** Reading a blob under a keyring; the nonces play no part in it. */
  function Reader(aead: Aead, ring: Ring, column: string): Codec {
    Codec(row => Read(aead, ring, column, row), row => Err(Malformed))
  }

  ghost predicate TableIntact(aead: Aead, ring: Ring, column: string, rows: seq<Row>, plain: map<string, Bytes>) {
    && Readable(Reader(aead, ring, column), rows, plain)
    && forall pk :: pk in plain <==> HasKey(rows, pk)
  }

  /** Every non-NULL blob of every table opens, under the keyring of the directory, to the plaintext its write gave it. */
  ghost predicate Intact(aead: Aead, schema: Schema, v: Vault, plain: Plain) {
    && IsServed(v)
    && (forall t :: t in v.tables <==> t in plain)
    && forall t :: t in v.tables ==> t in schema && TableIntact(aead, Loaded(v.disk), schema[t], v.tables[t], plain[t])
  }

  ghost predicate OpFollows(schema: Schema, v: Vault, op: Op) {
    op.Reencrypt? ==> TargetsFollow(schema, v.tables, op.targets)
  }

  lemma WriteKeepsTable(aead: Aead, ring: Ring, column: string, rows: seq<Row>, plain: map<string, Bytes>,
                        row: Row, plaintext: Bytes)
    requires TableIntact(aead, ring, column, rows, plain) && !HasKey(rows, row.pk)
    requires row.enc.Some? ==> Read(aead, ring, column, row) == Ok(plaintext)
    ensures TableIntact(aead, ring, column, rows + [row], plain[row.pk := plaintext])
  {
    var c := Reader(aead, ring, column);
    var rows', plain' := rows + [row], plain[row.pk := plaintext];
    forall i | 0 <= i < |rows'| ensures Reads(c, rows'[i], plain') {
      assert i < |rows| ==> Reads(c, rows[i], plain) && rows[i].pk != row.pk;
    }
    forall pk ensures pk in plain' <==> HasKey(rows', pk) {
      if HasKey(rows, pk) {
        var i :| 0 <= i < |rows| && rows[i].pk == pk;
        assert rows'[i].pk == pk;
      }
      assert rows'[|rows|] == row;
    }
  }

  lemma RotationKeepsTable(aead: Aead, ring: Ring, ring': Ring, column: string, rows: seq<Row>, plain: map<string, Bytes>)
    requires ring.Valid() && ring'.Valid()
    requires forall v :: v in ring.keys ==> v in ring'.keys && ring'.keys[v] == ring.keys[v]
    requires TableIntact(aead, ring, column, rows, plain)
    ensures TableIntact(aead, ring', column, rows, plain)
  {
    var c, c' := Reader(aead, ring, column), Reader(aead, ring', column);
    forall i | 0 <= i < |rows| ensures Reads(c', rows[i], plain) {
      assert Reads(c, rows[i], plain);
      if rows[i].enc.Some? {
        MoreKeysKeepOpening(aead, ring, ring', rows[i].aadId, column, rows[i].enc.value);
      }
    }
  }

  lemma ReadableEitherWay(c: Codec, c': Codec, rows: seq<Row>, plain: map<string, Bytes>)
    requires forall row :: c.read(row) == c'.read(row)
    ensures Readable(c, rows, plain) <==> Readable(c', rows, plain)
  {
    forall i | 0 <= i < |rows| ensures Reads(c, rows[i], plain) <==> Reads(c', rows[i], plain) {}
  }

  lemma SameKeys(rows: seq<Row>, rows': seq<Row>, pk: string)
    requires SameButCiphertext(rows, rows')
    ensures HasKey(rows, pk) <==> HasKey(rows', pk)
  {
    if HasKey(rows, pk) {
      var i :| 0 <= i < |rows| && rows[i].pk == pk;
      assert rows'[i].pk == pk;
    }
  }

  lemma RunKeepsVault(aead: Aead, schema: Schema, v: Vault, plain: Plain, targets: seq<Target>, quota: nat, nonces: string -> Nonce)
    requires aead.Ideal() && Intact(aead, schema, v, plain) && TargetsFollow(schema, v.tables, targets)
    ensures Intact(aead, schema, v.(tables := AllPasses(NewSealer(aead, Loaded(v.disk), nonces), quota, v.tables, targets).tables), plain)
  {
    var ring := Loaded(v.disk);
    var s := NewSealer(aead, ring, nonces);
    SealerReads(aead, schema, v, plain, nonces);
    RunKeepsData(s, quota, schema, v.tables, targets, plain);
    var tables' := AllPasses(s, quota, v.tables, targets).tables;
    forall t | t in tables' ensures TableIntact(aead, ring, schema[t], tables'[t], plain[t]) {
      assert TableReadable(s, schema, tables', plain, t);
      ReadableEitherWay(s.codec(schema[t]), Reader(aead, ring, schema[t]), tables'[t], plain[t]);
      forall pk ensures HasKey(v.tables[t], pk) <==> HasKey(tables'[t], pk) {
        SameKeys(v.tables[t], tables'[t], pk);
      }
    }
  }

  /** A restart finds the server's keyring exactly when the directory has no other key. */
  lemma RestartRestoresRingIff(v: Vault)
    requires IsServed(v)
    ensures Loaded(v.disk) == v.ring <==> v.disk.Keys == v.ring.keys.Keys
  {
    if v.disk.Keys == v.ring.keys.Keys {
      assert v.disk == v.ring.keys;
    }
  }

  /** A rotation writes the next version's key unless the directory has that version or versions have run out; the server takes it up
    * only if its file closed. One by another process takes the directory's next version and leaves the server as it was. */
  lemma RotationReceipt(aead: Aead, schema: Schema, v: Vault, op: Op, v': Vault)
    requires IsServed(v) && (op.Rotate? || op.RotateElsewhere?) && Steps(aead, schema, v, op, v')
    ensures op.Rotate? ==>
              var next := v.ring.current + 1;
              if next in v.disk || next == 0x1_0000_0000 then v' == v
              else v' == Vault(if op.closes then Ring(v.ring.keys[next := op.random], next) else v.ring, v.disk[next := op.random], v.tables)
    ensures op.RotateElsewhere? ==>
              exists current: u32 :: IsLargest(current, v.disk)
                && v' == v.(disk := if current == 0xFFFF_FFFF then v.disk else v.disk[current + 1 := op.random])
  {
    if op.RotateElsewhere? {
      assert IsLargest(Loaded(v.disk).current, v.disk);
    }
  }

  /** A larger directory opens what a smaller one did. */
  lemma GrowthKeepsIntact(aead: Aead, schema: Schema, v: Vault, plain: Plain, v': Vault)
    requires Intact(aead, schema, v, plain) && IsServed(v') && v'.tables == v.tables
    requires forall k :: k in v.disk ==> k in v'.disk && v'.disk[k] == v.disk[k]
    ensures Intact(aead, schema, v', plain)
  {
    forall t | t in v.tables ensures TableIntact(aead, Loaded(v'.disk), schema[t], v.tables[t], plain[t]) {
      RotationKeepsTable(aead, Loaded(v.disk), Loaded(v'.disk), schema[t], v.tables[t], plain[t]);
    }
  }

  lemma WriteKeepsIntact(aead: Aead, schema: Schema, v: Vault, plain: Plain, op: Op, v': Vault)
    requires aead.Ideal() && Intact(aead, schema, v, plain) && op.Write? && Steps(aead, schema, v, op, v')
    ensures Intact(aead, schema, v', Record(aead, schema, v, plain, op))
  {
    var row := Inserted(aead, schema, v, op);
    if row.Some? {
      if row.value.enc.Some? {
        SealOpens(aead, v.ring, row.value.aadId, schema[op.table], op.plaintext, op.nonce);
        MoreKeysKeepOpening(aead, v.ring, Loaded(v.disk), row.value.aadId, schema[op.table], row.value.enc.value);
      }
      WriteKeepsTable(aead, Loaded(v.disk), schema[op.table], v.tables[op.table], plain[op.table], row.value, op.plaintext);
    }
  }

  lemma RecordExtends(aead: Aead, schema: Schema, v: Vault, plain: Plain, op: Op)
    requires Intact(aead, schema, v, plain)
    ensures Extends(plain, Record(aead, schema, v, plain, op))
  {
    if op.Write? && op.table in plain && Inserted(aead, schema, v, op).Some? {
      assert TableIntact(aead, Loaded(v.disk), schema[op.table], v.tables[op.table], plain[op.table]);
    }
  }

  /** One step keeps every blob readable, and no recorded plaintext ever changes. */
  lemma StepKeepsData(aead: Aead, schema: Schema, v: Vault, plain: Plain, op: Op, v': Vault)
    requires aead.Ideal() && Intact(aead, schema, v, plain) && OpFollows(schema, v, op)
    requires Steps(aead, schema, v, op, v')
    ensures Intact(aead, schema, v', Record(aead, schema, v, plain, op))
    ensures Extends(plain, Record(aead, schema, v, plain, op))
  {
    RecordExtends(aead, schema, v, plain, op);
    hide TableIntact, AllPasses, Inserted, NewSealer, Extends;
    match op
    case Write(_, _, _, _, _) => WriteKeepsIntact(aead, schema, v, plain, op, v');
    case Reencrypt(targets, quota, nonces) => RunKeepsVault(aead, schema, v, plain, targets, quota, nonces);
    case _ => GrowthKeepsIntact(aead, schema, v, plain, v');
  }

  /** The running server opens a blob exactly when its own keyring has the blob's key version: after a rotation and a
    * re-encryption elsewhere, only a restart lets it read the rewritten rows again. */
  lemma ServerOpensIff(aead: Aead, schema: Schema, v: Vault, plain: Plain, t: string, i: nat)
    requires Intact(aead, schema, v, plain) && t in v.tables && i < |v.tables[t]| && v.tables[t][i].enc.Some?
    ensures var row := v.tables[t][i];
            && ParseKeyVersion(row.enc.value).Ok? && row.pk in plain[t]
            && (Read(aead, v.ring, schema[t], row) == Ok(plain[t][row.pk]) <==> ParseKeyVersion(row.enc.value).value in v.ring.keys)
            && Read(aead, Loaded(v.disk), schema[t], row) == Ok(plain[t][row.pk])
  {
    assert Reads(Reader(aead, Loaded(v.disk), schema[t]), v.tables[t][i], plain[t]);
    ParsersAgree(v.tables[t][i].enc.value);
  }

  /** After a restart the server opens every blob there is. */
  lemma RestartOpensAll(aead: Aead, schema: Schema, v: Vault, plain: Plain, v': Vault, t: string, i: nat)
    requires Intact(aead, schema, v, plain) && Steps(aead, schema, v, Restart, v')
    requires t in v.tables && i < |v.tables[t]| && v.tables[t][i].enc.Some?
    ensures v'.tables == v.tables && v'.disk == v.disk && v'.ring.keys == v.disk
    ensures v.tables[t][i].pk in plain[t] && Read(aead, v'.ring, schema[t], v'.tables[t][i]) == Ok(plain[t][v.tables[t][i].pk])
  {
    ServerOpensIff(aead, schema, v, plain, t, i);
  }

  /** A ciphertext copied to another row, or to another table's column, does not open there. */
  lemma CopiedBlobsDoNotOpen(aead: Aead, schema: Schema, v: Vault, plain: Plain, t: string, i: nat, t': string, row': Row)
    requires Intact(aead, schema, v, plain) && t in v.tables && i < |v.tables[t]| && v.tables[t][i].enc.Some?
    requires t' in schema && row'.aadId != "" && schema[t'] != "" && row'.enc == v.tables[t][i].enc
    requires (row'.aadId, schema[t']) != (v.tables[t][i].aadId, schema[t])
    requires AAD_SEPARATOR !in schema[t] && AAD_SEPARATOR !in schema[t']
    requires aead.Authentic({BuildAad(v.tables[t][i].aadId, schema[t]), BuildAad(row'.aadId, schema[t'])})
    ensures Read(aead, Loaded(v.disk), schema[t'], row') == Err(AuthenticationFailed)
    ensures Read(aead, v.ring, schema[t'], row').Err?
  {
    var row := v.tables[t][i];
    assert Reads(Reader(aead, Loaded(v.disk), schema[t]), row, plain[t]);
    hide Open, BuildAad;
    OpensInPlaceOnly(aead, Loaded(v.disk), row.aadId, schema[t], row'.aadId, schema[t'], row.enc.value);
    if Read(aead, v.ring, schema[t'], row').Ok? {
      MoreKeysKeepOpening(aead, v.ring, Loaded(v.disk), row'.aadId, schema[t'], row'.enc.value);
    }
  }

  /** With a sealer, a new row of a known table is inserted exactly when its place can be named and the version fits the header,
    * and then its ciphertext is there and opens to the plaintext under the server's own keyring; without one it has no ciphertext. */
  lemma WritesAreSealed(aead: Aead, schema: Schema, v: Vault, op: Op)
    requires aead.Ideal() && v.ring.Valid() && op.Write?
    requires op.table in v.tables && op.table in schema && !HasKey(v.tables[op.table], op.row.pk)
    ensures Inserted(aead, schema, v, op).Some?
       <==> (op.sealerOn ==> op.row.aadId != "" && schema[op.table] != "" && v.ring.current <= MAX_KEY_VERSION)
    ensures !op.sealerOn ==> Inserted(aead, schema, v, op) == Some(Row(op.row.pk, op.row.aadId, None))
    ensures op.sealerOn && Inserted(aead, schema, v, op).Some? ==>
              var row := Inserted(aead, schema, v, op).value;
              && row.pk == op.row.pk && row.aadId == op.row.aadId && row.enc.Some? && AtVersion(row, v.ring.current)
              && Read(aead, v.ring, schema[op.table], row) == Ok(op.plaintext)
  {
    if op.sealerOn && op.row.aadId != "" && schema[op.table] != "" && v.ring.current <= MAX_KEY_VERSION {
      SealOpens(aead, v.ring, op.row.aadId, schema[op.table], op.plaintext, op.nonce);
    }
    hide Open, BuildAad;
  }

  ghost predicate Extends(plain: Plain, plain': Plain) {
    forall t, pk :: t in plain && pk in plain[t] ==> t in plain' && pk in plain'[t] && plain'[t][pk] == plain[t][pk]
  }

  /** A history: the operations and every state in between. */
  ghost predicate IsHistory(aead: Aead, schema: Schema, ops: seq<Op>, states: seq<Vault>) {
    && |states| == |ops| + 1
    && forall i :: 0 <= i < |ops| ==>
         IsServed(states[i]) && OpFollows(schema, states[i], ops[i]) && Steps(aead, schema, states[i], ops[i], states[i + 1])
  }

  ghost function Recorded(aead: Aead, schema: Schema, ops: seq<Op>, states: seq<Vault>, plain: Plain, n: nat): Plain
    requires IsHistory(aead, schema, ops, states) && n <= |ops|
  {
    if n == 0 then plain
    else Record(aead, schema, states[n - 1], Recorded(aead, schema, ops, states, plain, n - 1), ops[n - 1])
  }

  /** Main result: over any sequence of writes, rotations, restarts and re-encryption runs interrupted at any row,
    * every non-NULL blob still opens, under its row's AAD and the keyring of the directory, to its original plaintext. */
  lemma {:induction false} HistoryKeepsData(aead: Aead, schema: Schema, ops: seq<Op>, states: seq<Vault>, plain: Plain, n: nat)
    requires aead.Ideal() && IsHistory(aead, schema, ops, states) && n <= |ops|
    requires Intact(aead, schema, states[0], plain)
    ensures Intact(aead, schema, states[n], Recorded(aead, schema, ops, states, plain, n))
    ensures Extends(plain, Recorded(aead, schema, ops, states, plain, n))
  {
    if n > 0 {
      HistoryKeepsData(aead, schema, ops, states, plain, n - 1);
      StepKeepsData(aead, schema, states[n - 1], Recorded(aead, schema, ops, states, plain, n - 1), ops[n - 1], states[n]);
    }
  }

  /** A table rewritten with room for all its updates is current. */
  lemma RunCompletes(s: Sealer, schema: Schema, tables: Tables, target: Target, plain: Plain)
    requires SealerFaithful(s) && s.current <= MAX_KEY_VERSION && AllReadable(s, schema, tables, plain)
    requires TargetsFollow(schema, tables, [target])
    ensures target in [target]
    ensures AllPasses(s, |tables[target.table]| + 1, tables, [target]).failure.None?
    ensures AllAtVersion(AllPasses(s, |tables[target.table]| + 1, tables, [target]).tables[target.table], s.current)
  {
    var quota := |tables[target.table]| + 1;
    assert target in [target] && [target][..0] == [];
    assert TableReadable(s, schema, tables, plain, target.table);
    PassKeepsData(s.codec(target.column), s.current, quota, tables[target.table], plain[target.table]);
    hide OnePass, Readable;
    assert AllPasses(s, quota, tables, [target])
        == RunTarget(s, Report(tables, ZERO, map[], quota, None), target);
  }

  /** The history that leaves the server behind: a rotation elsewhere, and a run over this table. */
  function Overtaken(random: Key, target: Target, quota: nat, nonces: string -> Nonce): seq<Op> {
    [RotateElsewhere(random, true), Op.Reencrypt([target], quota, nonces)]
  }

  /** The server opens no row of the table, though the keyring of the directory opens each to its plaintext. */
  ghost predicate IsBehind(aead: Aead, schema: Schema, v: Vault, plain: Plain, t: string) {
    && IsServed(v) && t in v.tables && t in schema && t in plain
    && forall i :: 0 <= i < |v.tables[t]| && v.tables[t][i].enc.Some? ==>
         var row := v.tables[t][i];
         && row.pk in plain[t] && Read(aead, v.ring, schema[t], row) != Ok(plain[t][row.pk])
         && Read(aead, Loaded(v.disk), schema[t], row) == Ok(plain[t][row.pk])
  }

  ghost predicate FallsBehind(aead: Aead, schema: Schema, plain: Plain, t: string, ops: seq<Op>, states: seq<Vault>) {
    IsHistory(aead, schema, ops, states) && IsBehind(aead, schema, states[|ops|], plain, t)
  }

  /** A table sealed under a key the server does not have. */
  lemma UnknownKeyLeavesBehind(aead: Aead, schema: Schema, v: Vault, plain: Plain, t: string)
    requires Intact(aead, schema, v, plain) && t in v.tables
    requires AllAtVersion(v.tables[t], Loaded(v.disk).current) && Loaded(v.disk).current !in v.ring.keys
    ensures IsBehind(aead, schema, v, plain, t)
  {
    forall i | 0 <= i < |v.tables[t]| && v.tables[t][i].enc.Some?
      ensures var row := v.tables[t][i];
              && row.pk in plain[t] && Read(aead, v.ring, schema[t], row) != Ok(plain[t][row.pk])
              && Read(aead, Loaded(v.disk), schema[t], row) == Ok(plain[t][row.pk])
    {
      ServerOpensIff(aead, schema, v, plain, t, i);
      hide Read, TableIntact;
      assert AtVersion(v.tables[t][i], Loaded(v.disk).current);
    }
  }

  lemma RotatesElsewhere(aead: Aead, schema: Schema, v: Vault, plain: Plain, random: Key) returns (v': Vault)
    requires Intact(aead, schema, v, plain) && Loaded(v.disk).current < MAX_KEY_VERSION
    ensures Steps(aead, schema, v, RotateElsewhere(random, true), v') && Intact(aead, schema, v', plain)
    ensures v'.tables == v.tables && v'.ring == v.ring
    ensures Loaded(v'.disk).current == Loaded(v.disk).current + 1 && Loaded(v'.disk).current !in v.ring.keys
  {
    var disk := v.disk[Loaded(v.disk).current + 1 := random];
    v' := v.(disk := disk);
    assert IsLargest(Loaded(v.disk).current + 1, disk);
    GrowthKeepsIntact(aead, schema, v, plain, v');
    hide TableIntact;
  }

  /** From any intact vault that can still rotate, a rotation and a re-encryption elsewhere leave the running server unable to open
    * any row of the table. */
  lemma ServerIsOvertaken(aead: Aead, schema: Schema, v: Vault, plain: Plain, target: Target, random: Key, nonces: string -> Nonce)
    requires aead.Ideal() && Intact(aead, schema, v, plain) && TargetsFollow(schema, v.tables, [target]) && target in [target]
    requires Loaded(v.disk).current < MAX_KEY_VERSION
    ensures exists states: seq<Vault> ::
              FallsBehind(aead, schema, plain, target.table, Overtaken(random, target, |v.tables[target.table]| + 1, nonces), states)
              && states[0] == v
  {
    hide Read, NewSealer, Readable, TableIntact;
    var t, quota := target.table, |v.tables[target.table]| + 1;
    var rotated := RotatesElsewhere(aead, schema, v, plain, random);
    var s := NewSealer(aead, Loaded(rotated.disk), nonces);
    assert s.current == Loaded(rotated.disk).current by { SealerIsCurrent(aead, Loaded(rotated.disk), nonces); }
    SealerReads(aead, schema, rotated, plain, nonces);
    RunCompletes(s, schema, v.tables, target, plain);
    RunKeepsVault(aead, schema, rotated, plain, [target], quota, nonces);
    hide AllPasses, AllAtVersion;
    var after := rotated.(tables := AllPasses(s, quota, v.tables, [target]).tables);
    UnknownKeyLeavesBehind(aead, schema, after, plain, t);
    OvertakenIsHistory(aead, schema, v, rotated, after, random, target, quota, nonces);
    var states := [v, rotated, after];
    assert FallsBehind(aead, schema, plain, target.table, Overtaken(random, target, quota, nonces), states) && states[0] == v;
  }

  lemma SealerIsCurrent(aead: Aead, ring: Ring, nonces: string -> Nonce)
    requires ring.Valid()
    ensures NewSealer(aead, ring, nonces).current == ring.current
  {
  }

  lemma OvertakenIsHistory(aead: Aead, schema: Schema, v: Vault, v': Vault, v'': Vault, random: Key, target: Target, quota: nat,
                           nonces: string -> Nonce)
    requires IsServed(v) && IsServed(v') && Steps(aead, schema, v, RotateElsewhere(random, true), v')
    requires TargetsFollow(schema, v'.tables, [target]) && Steps(aead, schema, v', Op.Reencrypt([target], quota, nonces), v'')
    ensures IsHistory(aead, schema, Overtaken(random, target, quota, nonces), [v, v', v''])
  {
    hide Steps, IsServed;
  }

  lemma SealerReads(aead: Aead, schema: Schema, v: Vault, plain: Plain, nonces: string -> Nonce)
    requires aead.Ideal() && Intact(aead, schema, v, plain)
    ensures var s := NewSealer(aead, Loaded(v.disk), nonces); SealerFaithful(s) && AllReadable(s, schema, v.tables, plain)
  {
    var ring := Loaded(v.disk);
    var s := NewSealer(aead, ring, nonces);
    forall column ensures Faithful(s.current, s.codec(column)) {
      SealerIsFaithful(aead, ring, nonces, column);
    }
    forall t | t in v.tables ensures TableReadable(s, schema, v.tables, plain, t) {
      ReadableEitherWay(s.codec(schema[t]), Reader(aead, ring, schema[t]), v.tables[t], plain[t]);
    }
  }

  /** Main result: an interrupted run that is then completed, and an uninterrupted run, agree on every row: the same
    * plaintext, the current version; and running again rewrites nothing. */
  lemma ResumedRunAgrees(s: Sealer, s': Sealer, schema: Schema, tables: Tables, targets: seq<Target>, plain: Plain,
                         firstQuota: nat, secondQuota: nat, wholeQuota: nat, t: string, i: nat)
    requires SealerFaithful(s) && SealerFaithful(s') && s.current == s'.current
    requires forall column, row :: s.codec(column).read(row) == s'.codec(column).read(row)
    requires AllReadable(s, schema, tables, plain) && TargetsFollow(schema, tables, targets)
    requires t in tables && i < |tables[t]| && exists target :: target in targets && target.table == t
    ensures var broken := AllPasses(s, firstQuota, tables, targets);
            var resumed := AllPasses(s', secondQuota, broken.tables, targets);
            var whole := AllPasses(s, wholeQuota, tables, targets);
            resumed.failure.None? && whole.failure.None? ==>
              && t in resumed.tables && t in whole.tables && i < |resumed.tables[t]| && i < |whole.tables[t]|
              && (var row, row' := whole.tables[t][i], resumed.tables[t][i];
                  && row.enc.Some? == row'.enc.Some? == tables[t][i].enc.Some?
                  && AtVersion(row, s.current) && AtVersion(row', s.current)
                  && (row.enc.Some? ==> s.codec(schema[t]).read(row) == s.codec(schema[t]).read(row')
                                     == s.codec(schema[t]).read(tables[t][i])))
              && AllPasses(s', secondQuota, resumed.tables, targets).tables == resumed.tables
              && AllPasses(s', secondQuota, resumed.tables, targets).stats.reencrypted == 0
  {
    var broken := AllPasses(s, firstQuota, tables, targets);
    RunKeepsData(s, firstQuota, schema, tables, targets, plain);
    RunKeepsData(s, wholeQuota, schema, tables, targets, plain);
    var whole := AllPasses(s, wholeQuota, tables, targets);
    SealersReadAlike(s, s', schema, broken.tables, plain);
    RunKeepsData(s', secondQuota, schema, broken.tables, targets, plain);
    var resumed := AllPasses(s', secondQuota, broken.tables, targets);
    RunKeepsData(s', secondQuota, schema, resumed.tables, targets, plain);
    RowReads(s, schema, tables, plain, t, i);
    RowReads(s, schema, whole.tables, plain, t, i);
    RowReads(s', schema, resumed.tables, plain, t, i);
  }

  lemma SealersReadAlike(s: Sealer, s': Sealer, schema: Schema, tables: Tables, plain: Plain)
    requires forall column, row :: s.codec(column).read(row) == s'.codec(column).read(row)
    requires AllReadable(s, schema, tables, plain)
    ensures AllReadable(s', schema, tables, plain)
  {
    forall t | t in tables ensures TableReadable(s', schema, tables, plain, t) {
      assert TableReadable(s, schema, tables, plain, t);
      ReadableEitherWay(s.codec(schema[t]), s'.codec(schema[t]), tables[t], plain[t]);
    }
  }

  lemma RowReads(s: Sealer, schema: Schema, tables: Tables, plain: Plain, t: string, i: nat)
    requires AllReadable(s, schema, tables, plain) && t in tables && i < |tables[t]|
    ensures t in schema && t in plain
    ensures var row := tables[t][i];
            row.enc.Some? ==> row.pk in plain[t] && s.codec(schema[t]).read(row) == Ok(plain[t][row.pk])
  {
    assert TableReadable(s, schema, tables, plain, t);
    assert Reads(s.codec(schema[t]), tables[t][i], plain[t]);
  }
}
