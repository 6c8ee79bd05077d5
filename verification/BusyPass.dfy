/** A re-encryption pass while the server goes on inserting: rows that land between the scan and the rewrites it leads to
  * (runOne, internal/reencrypt/reencrypt.go; each rewrite is its own transaction). */
module BusyPass {
  import opened Common
  import opened Sealing
  import opened Reencrypt
  import opened Vault

  /** What happens after the scan, one statement at a time. */
  datatype Beat = Rewrite | Insert(row: Row)

  /** The table as it is being rewritten, and how many of the scanned rows have been tried. */
  datatype Progress = Progress(rewriting: Rewriting, tried: nat)

  /** An insert with a known primary key is refused. */
  function Beaten(c: Codec, quota: nat, pending: seq<Row>, p: Progress, beat: Beat): Progress {
    match beat
    case Rewrite =>
      if p.tried >= |pending| then p else Progress(RewriteRow(c, quota, p.rewriting, pending[p.tried]), p.tried + 1)
    case Insert(row) =>
      if HasKey(p.rewriting.rows, row.pk) then p else p.(rewriting := p.rewriting.(rows := p.rewriting.rows + [row]))
  }

  function Busy(c: Codec, quota: nat, rows: seq<Row>, pending: seq<Row>, beats: seq<Beat>): Progress {
    if beats == [] then Progress(Rewriting(rows, 0, None), 0)
    else Beaten(c, quota, pending, Busy(c, quota, rows, pending, beats[..|beats| - 1]), beats[|beats| - 1])
  }

  /** The rows that were inserted. */
  function Arrivals(rows: seq<Row>, beats: seq<Beat>): seq<Row> {
    if beats == [] then []
    else
      var before, beat := Arrivals(rows, beats[..|beats| - 1]), beats[|beats| - 1];
      if beat.Insert? && !HasKey(rows + before, beat.row.pk) then before + [beat.row] else before
  }

  /** The same primary keys in the same places. */
  ghost predicate SamePlaces(rows: seq<Row>, rows': seq<Row>) {
    |rows'| == |rows| && forall i :: 0 <= i < |rows| ==> rows'[i].pk == rows[i].pk
  }

  lemma {:induction false} RewritesKeepPlaces(c: Codec, quota: nat, rows: seq<Row>, pending: seq<Row>)
    ensures SamePlaces(rows, RewriteRows(c, quota, rows, pending).rows)
  {
    if pending != [] {
      RewritesKeepPlaces(c, quota, rows, pending[..|pending| - 1]);
    }
  }

  lemma SamePlacesSameKeys(rows: seq<Row>, rows': seq<Row>, more: seq<Row>, pk: string)
    requires SamePlaces(rows, rows')
    ensures HasKey(rows + more, pk) <==> HasKey(rows' + more, pk)
  {
    forall i | 0 <= i < |rows + more| ensures (rows + more)[i].pk == (rows' + more)[i].pk {}
    if HasKey(rows + more, pk) {
      var i :| 0 <= i < |rows + more| && (rows + more)[i].pk == pk;
      assert (rows' + more)[i].pk == pk;
    }
    if HasKey(rows' + more, pk) {
      var i :| 0 <= i < |rows' + more| && (rows' + more)[i].pk == pk;
      assert (rows + more)[i].pk == pk;
    }
  }

  lemma RewritePassesBy(rows: seq<Row>, more: seq<Row>, pk: string, blob: Bytes)
    requires !HasKey(more, pk)
    ensures SetEnc(rows + more, pk, blob) == SetEnc(rows, pk, blob) + more
  {
    forall i | 0 <= i < |more| ensures more[i].pk != pk {}
  }

  /** An arrival has a key no scanned row has. */
  lemma {:induction false} ArrivalsAreNew(rows: seq<Row>, beats: seq<Beat>)
    ensures forall i :: 0 <= i < |Arrivals(rows, beats)| ==> !HasKey(rows, Arrivals(rows, beats)[i].pk)
    ensures DistinctKeys(Arrivals(rows, beats))
  {
    if beats != [] {
      ArrivalsAreNew(rows, beats[..|beats| - 1]);
      var before, beat := Arrivals(rows, beats[..|beats| - 1]), beats[|beats| - 1];
      if beat.Insert? && !HasKey(rows + before, beat.row.pk) {
        forall i | 0 <= i < |rows| ensures rows[i].pk != beat.row.pk {
          assert (rows + before)[i] == rows[i];
        }
        forall i | 0 <= i < |before| ensures before[i].pk != beat.row.pk {
          assert (rows + before)[|rows| + i] == before[i];
        }
      }
    }
  }

  lemma ScannedKeyIsOld(rows: seq<Row>, beats: seq<Beat>, row: Row)
    requires row in rows
    ensures !HasKey(Arrivals(rows, beats), row.pk)
  {
    ArrivalsAreNew(rows, beats);
    var k :| 0 <= k < |rows| && rows[k] == row;
    assert HasKey(rows, row.pk);
  }

  /** Inserts and rewrites commute: whenever the inserts land, the table is the scanned rows rewritten so far, followed by them. */
  lemma {:induction false} InsertsCommute(c: Codec, quota: nat, rows: seq<Row>, pending: seq<Row>, beats: seq<Beat>)
    requires forall row :: row in pending ==> row in rows
    ensures var p := Busy(c, quota, rows, pending, beats);
            && p.tried <= |pending|
            && var alone := RewriteRows(c, quota, rows, pending[..p.tried]);
               p.rewriting == alone.(rows := alone.rows + Arrivals(rows, beats))
  {
    if beats == [] {
      assert rows + [] == rows;
    } else {
      var n := |beats| - 1;
      var p, arrived := Busy(c, quota, rows, pending, beats[..n]), Arrivals(rows, beats[..n]);
      InsertsCommute(c, quota, rows, pending, beats[..n]);
      var alone := RewriteRows(c, quota, rows, pending[..p.tried]);
      RewritesKeepPlaces(c, quota, rows, pending[..p.tried]);
      match beats[n]
      case Insert(row) =>
        SamePlacesSameKeys(rows, alone.rows, arrived, row.pk);
        assert (alone.rows + arrived) + [row] == alone.rows + (arrived + [row]);
      case Rewrite =>
        if p.tried < |pending| {
          var row := pending[p.tried];
          assert pending[..p.tried + 1][..p.tried] == pending[..p.tried];
          ScannedKeyIsOld(rows, beats[..n], row);
          if c.reseal(row).Ok? {
            RewritePassesBy(alone.rows, arrived, row.pk, c.reseal(row).value);
          }
        }
    }
  }

  /** The pass is through: every scanned row that needed it has been tried. */
  predicate IsThrough(c: Codec, current: u32, quota: nat, rows: seq<Row>, beats: seq<Beat>) {
    Busy(c, quota, rows, ScanRows(current, rows).pending, beats).tried == |ScanRows(current, rows).pending|
  }

  /** Main result, a pass with inserts in it: it leaves the quiet pass over the scanned rows, followed by the rows inserted; every
    * blob still opens to its plaintext; and unless it failed, the scanned rows are exactly the ones brought to the current
    * version, while the inserted rows stay as they were written. */
  lemma BusyPassKeepsData(c: Codec, current: u32, quota: nat, rows: seq<Row>, beats: seq<Beat>, plain: map<string, Bytes>)
    requires Faithful(current, c) && Readable(c, rows, plain) && IsThrough(c, current, quota, rows, beats)
    requires forall i :: 0 <= i < |Arrivals(rows, beats)| ==> Reads(c, Arrivals(rows, beats)[i], plain)
    ensures var pass := OnePass(c, current, quota, rows);
            var left := Busy(c, quota, rows, ScanRows(current, rows).pending, beats).rewriting;
            && left.rows == pass.rows + Arrivals(rows, beats) && Readable(c, left.rows, plain)
            && left.failure == pass.failure && left.done == pass.stats.reencrypted
            && |pass.rows| == |rows| && (left.failure.None? ==> AllAtVersion(left.rows[..|rows|], current))
  {
    ScanSortsRows(c, current, rows, plain);
    PassKeepsData(c, current, quota, rows, plain);
    var pending, arrived := ScanRows(current, rows).pending, Arrivals(rows, beats);
    InsertsCommute(c, quota, rows, pending, beats);
    assert pending[..|pending|] == pending;
    var pass := OnePass(c, current, quota, rows);
    RewritesKeepPlaces(c, quota, rows, pending);
    ArrivalsAreNew(rows, beats);
    forall i, j | 0 <= i < |rows| && 0 <= j < |arrived| ensures pass.rows[i].pk != arrived[j].pk {
      assert pass.rows[i].pk == rows[i].pk && !HasKey(rows, arrived[j].pk);
    }
    assert forall i :: 0 <= i < |rows| ==> Reads(c, pass.rows[i], plain);
    assert (pass.rows + arrived)[..|rows|] == pass.rows;
  }
}
