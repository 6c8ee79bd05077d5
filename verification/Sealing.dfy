/** Ciphertext packaging (internal/crypto/seal.go) over an ideal AEAD, and the keyring (internal/keys/local.go). */
module Sealing {
  import opened Common

  newtype byte = x: int | 0 <= x < 256

  type Bytes = seq<byte>

  type u32 = x: int | 0 <= x < 0x1_0000_0000

  const VERSION_BYTE: byte := 1
  const NONCE_SIZE := 12
  const HEADER_SIZE := 16
  const AUTH_TAG_SIZE := 16
  const MAX_KEY_VERSION := 0xFF_FFFF

  type Key = Bytes

  type Nonce = n: Bytes | |n| == NONCE_SIZE witness seq(NONCE_SIZE, _ => 0)

  /** The AEAD interface of section 2 of RFC 5116: seal(key, nonce, plaintext, associated data), and open. */
  datatype Aead = Aead(
    seal: (Key, Nonce, Bytes, string) -> Bytes,
    open: (Key, Nonce, Bytes, string) -> Option<Bytes>)
  {
    ghost predicate Ideal() {
      forall k: Key, n: Nonce, p: Bytes, a: string ::
        && |seal(k, n, p, a)| == |p| + AUTH_TAG_SIZE
        && open(k, n, seal(k, n, p, a), a) == Some(p)
    }

    /** No text opens under two of these associated data. A tag of a fixed size cannot tell all texts apart, so this is about
      * the ones in use. */
    ghost predicate Authentic(aads: set<string>) {
      forall k: Key, n: Nonce, c: Bytes, a: string, a': string ::
        a in aads && a' in aads && a != a' && open(k, n, c, a).Some? ==> open(k, n, c, a') == None
    }
  }

  // ---- The header -------------------------------------------------------------------------------

  function BuildAad(rowId: string, column: string): string {
    "acp-server|" + rowId + "|" + column
  }

  const AAD_SEPARATOR := '|'

  lemma ShorterHeadLeavesSeparator(x: string, c: string, y: string, d: string)
    requires x + ([AAD_SEPARATOR] + c) == y + ([AAD_SEPARATOR] + d)
    ensures |x| < |y| ==> AAD_SEPARATOR in c
  {
    var whole := x + ([AAD_SEPARATOR] + c);
    if |x| < |y| {
      assert whole[|y|] == AAD_SEPARATOR && whole[|y|] == c[|y| - |x| - 1];
    }
  }

  lemma LastSeparatorSplits(x: string, c: string, y: string, d: string)
    requires AAD_SEPARATOR !in c && AAD_SEPARATOR !in d && x + ([AAD_SEPARATOR] + c) == y + ([AAD_SEPARATOR] + d)
    ensures x == y && c == d
  {
    var whole := x + ([AAD_SEPARATOR] + c);
    ShorterHeadLeavesSeparator(x, c, y, d);
    ShorterHeadLeavesSeparator(y, d, x, c);
    assert x == whole[..|x|] && y == whole[..|y|];
    assert c == whole[|x| + 1..] && d == whole[|y| + 1..];
  }

  /** The associated data tell rows and columns apart as long as column names carry no separator; with one they may not. */
  lemma AadIsExact(rowId: string, column: string, rowId': string, column': string)
    requires AAD_SEPARATOR !in column && AAD_SEPARATOR !in column'
    ensures BuildAad(rowId, column) == BuildAad(rowId', column') <==> rowId == rowId' && column == column'
    ensures BuildAad("a|b", "c") == BuildAad("a", "b|c")
    ensures BuildAad("row", "column") == "acp-server|row|column"
  {
    var aad, aad' := BuildAad(rowId, column), BuildAad(rowId', column');
    var head := "acp-server|";
    assert aad[|head|..] == rowId + ([AAD_SEPARATOR] + column);
    assert aad'[|head|..] == rowId' + ([AAD_SEPARATOR] + column');
    if aad == aad' {
      LastSeparatorSplits(rowId, column, rowId', column');
    }
  }

  /** writeHeader: only the low three bytes of the key version are packed. */
  function Header(keyVersion: u32, nonce: Nonce): (h: Bytes)
    ensures |h| == HEADER_SIZE
  {
    [VERSION_BYTE, (keyVersion / 0x1_0000 % 256) as byte, (keyVersion / 0x100 % 256) as byte, (keyVersion % 256) as byte]
    + nonce
  }

  /** Bytes 1 to 3, most significant first. */
  function U24(blob: Bytes): u32
    requires |blob| >= 4
  {
    blob[1] as int * 0x1_0000 + blob[2] as int * 0x100 + blob[3] as int
  }

  datatype Parsed = Parsed(version: byte, keyVersion: u32, nonce: Nonce, payload: Bytes)

  datatype CryptoError =
    | MissingRowOrColumn | NotInitialized | KeyVersionOutOfRange | Malformed | UnsupportedVersion
    | KeyVersionUnavailable | AuthenticationFailed

  /** parseHeader. */
  function ParseHeader(blob: Bytes): Result<Parsed, CryptoError> {
    if |blob| < HEADER_SIZE + AUTH_TAG_SIZE then Err(Malformed)
    else Ok(Parsed(blob[0], U24(blob), blob[4..HEADER_SIZE], blob[HEADER_SIZE..]))
  }

  /** parseKeyVersion of the reencrypt package: the same u24, from four bytes on. */
  function ParseKeyVersion(blob: Bytes): Result<u32, CryptoError> {
    if |blob| < 4 then Err(Malformed)
    else if blob[0] != VERSION_BYTE then Err(UnsupportedVersion)
    else Ok(U24(blob))
  }

  /** Base-256 digits. */
  lemma LowBytes(v: int)
    requires v >= 0
    ensures v / 0x1_0000 % 256 * 0x1_0000 + v / 0x100 % 256 * 0x100 + v % 256 == v % 0x100_0000
  {
    var high, middle, low := v / 0x1_0000, v / 0x100 % 256, v % 256;
    assert v == 256 * (v / 256) + low;
    assert v / 256 == 256 * (v / 256 / 256) + middle;
    assert v / 256 / 256 == high;
    assert high == 256 * (high / 256) + high % 256;
    assert v == 0x100_0000 * (high / 256) + (high % 256 * 0x1_0000 + middle * 0x100 + low);
  }

  /** The header keeps a key version exactly when it fits 24 bits, which is why Seal refuses a larger one. */
  lemma HeaderRoundTrip(v: u32, nonce: Nonce, payload: Bytes)
    requires |payload| >= AUTH_TAG_SIZE
    ensures var blob := Header(v, nonce) + payload;
            && ParseHeader(blob) == Ok(Parsed(VERSION_BYTE, v % 0x100_0000, nonce, payload))
            && ParseKeyVersion(blob) == Ok(v % 0x100_0000)
            && (ParseKeyVersion(blob) == Ok(v) <==> v <= MAX_KEY_VERSION)
  {
    var blob := Header(v, nonce) + payload;
    assert blob[4..HEADER_SIZE] == nonce;
    assert blob[HEADER_SIZE..] == payload;
    LowBytes(v);
  }

  /** On every blob parseHeader accepts, the two parsers agree; parseKeyVersion also checks the format byte, and
    * alone accepts the lengths from 4 to 31. */
  lemma ParsersAgree(blob: Bytes)
    ensures ParseHeader(blob).Ok? ==>
              (ParseKeyVersion(blob) == if ParseHeader(blob).value.version == VERSION_BYTE
                                        then Ok(ParseHeader(blob).value.keyVersion) else Err(UnsupportedVersion))
    ensures ParseHeader(blob).Err? && ParseKeyVersion(blob).Ok? <==>
              4 <= |blob| < HEADER_SIZE + AUTH_TAG_SIZE && blob[0] == VERSION_BYTE
  {
  }

  // ---- The keyring ------------------------------------------------------------------------------

  /** The provider's keys and current pointer; 0 means not initialized. */
  datatype Ring = Ring(keys: map<u32, Key>, current: u32)
  {
    predicate Valid() {
      current != 0 && current in keys && forall v :: v in keys ==> 1 <= v <= current
    }

    /** At. */
    function At(v: u32): Result<Key, CryptoError> {
      if current == 0 then Err(NotInitialized)
      else if v !in keys then Err(KeyVersionUnavailable)
      else Ok(keys[v])
    }
  }

  /** Seal. */
  function Seal(aead: Aead, ring: Ring, rowId: string, column: string, plaintext: Bytes, nonce: Nonce)
    : Result<Bytes, CryptoError>
    requires ring.current != 0 ==> ring.current in ring.keys
  {
    if rowId == "" || column == "" then Err(MissingRowOrColumn)
    else if ring.current == 0 then Err(NotInitialized)
    else if ring.current > MAX_KEY_VERSION then Err(KeyVersionOutOfRange)
    else Ok(Header(ring.current, nonce)
            + aead.seal(ring.keys[ring.current], nonce, plaintext, BuildAad(rowId, column)))
  }

  /** Open. */
  function Open(aead: Aead, ring: Ring, rowId: string, column: string, blob: Bytes): Result<Bytes, CryptoError> {
    if rowId == "" || column == "" then Err(MissingRowOrColumn)
    else
      match ParseHeader(blob)
      case Err(e) => Err(e)
      case Ok(p) =>
        if p.version != VERSION_BYTE then Err(UnsupportedVersion)
        else match ring.At(p.keyVersion)
          case Err(e) => Err(e)
          case Ok(key) =>
            var plaintext := aead.open(key, p.nonce, p.payload, BuildAad(rowId, column));
            if plaintext.Some? then Ok(plaintext.value) else Err(AuthenticationFailed)
  }

  /** What Seal produces opens to the plaintext, carries the current version, and needs no other key. */
  lemma SealOpens(aead: Aead, ring: Ring, rowId: string, column: string, plaintext: Bytes, nonce: Nonce)
    requires aead.Ideal() && ring.Valid()
    requires Seal(aead, ring, rowId, column, plaintext, nonce).Ok?
    ensures var blob := Seal(aead, ring, rowId, column, plaintext, nonce).value;
            && ParseKeyVersion(blob) == Ok(ring.current)
            && Open(aead, ring, rowId, column, blob) == Ok(plaintext)
  {
    HeaderRoundTrip(ring.current, nonce, aead.seal(ring.keys[ring.current], nonce, plaintext, BuildAad(rowId, column)));
  }

  /** What Seal answers, in bytes: the format byte, the key version in three bytes from the highest, the nonce, and the sealed text. */
  lemma SealedBytes(aead: Aead, ring: Ring, rowId: string, column: string, plaintext: Bytes, nonce: Nonce)
    requires ring.current != 0 ==> ring.current in ring.keys
    ensures var r := Seal(aead, ring, rowId, column, plaintext, nonce);
            && (r == Err(MissingRowOrColumn) <==> |rowId| == 0 || |column| == 0)
            && (|rowId| > 0 && |column| > 0 ==>
                  && (r == Err(NotInitialized) <==> ring.current == 0)
                  && (r == Err(KeyVersionOutOfRange) <==> ring.current > 0xFF_FFFF)
                  && (r.Ok? <==> 1 <= ring.current <= 0xFF_FFFF))
            && (r.Ok? ==>
                  && |r.value| >= 16 && r.value[0] == 1
                  && r.value[1] as int * 0x1_0000 + r.value[2] as int * 0x100 + r.value[3] as int == ring.current
                  && r.value[4..16] == nonce
                  && r.value[16..] == aead.seal(ring.keys[ring.current], nonce, plaintext, "acp-server|" + rowId + "|" + column))
  {
    LowBytes(ring.current);
  }

  /** What Open answers, in bytes: each refusal exactly when, in this order, and otherwise what the AEAD answers for the named key. */
  lemma OpenAnswers(aead: Aead, ring: Ring, rowId: string, column: string, blob: Bytes)
    ensures var r := Open(aead, ring, rowId, column, blob);
            && (r == Err(MissingRowOrColumn) <==> |rowId| == 0 || |column| == 0)
            && (|rowId| > 0 && |column| > 0 ==>
                  && (r == Err(Malformed) <==> |blob| < 32)
                  && (|blob| >= 32 ==>
                        var version := blob[1] as int * 0x1_0000 + blob[2] as int * 0x100 + blob[3] as int;
                        && (r == Err(UnsupportedVersion) <==> blob[0] != 1)
                        && (blob[0] == 1 ==>
                              && (r == Err(NotInitialized) <==> ring.current == 0)
                              && (ring.current != 0 ==>
                                    && (r == Err(KeyVersionUnavailable) <==> version !in ring.keys)
                                    && (version in ring.keys ==>
                                          r == match aead.open(ring.keys[version], blob[4..16], blob[16..], "acp-server|" + rowId + "|" + column)
                                               case Some(plaintext) => Ok(plaintext)
                                               case None => Err(AuthenticationFailed))))))
  {
  }

  /** A blob that opens in its own place opens in no other: there it fails to authenticate. */
  lemma OpensInPlaceOnly(aead: Aead, ring: Ring, rowId: string, column: string, rowId': string, column': string, blob: Bytes)
    requires aead.Authentic({BuildAad(rowId, column), BuildAad(rowId', column')})
    requires AAD_SEPARATOR !in column && AAD_SEPARATOR !in column' && rowId' != "" && column' != ""
    requires Open(aead, ring, rowId, column, blob).Ok?
    ensures Open(aead, ring, rowId', column', blob)
         == if rowId == rowId' && column == column' then Open(aead, ring, rowId, column, blob) else Err(AuthenticationFailed)
  {
    AadIsExact(rowId, column, rowId', column');
    hide BuildAad;
    var p := ParseHeader(blob).value;
    assert aead.open(ring.keys[p.keyVersion], p.nonce, p.payload, BuildAad(rowId, column)).Some?;
  }

  /** Main result, binding: what was sealed for a row and a column opens for a row and a column exactly when they are the same,
    * under any ring that still has the key. */
  lemma SealBindsRowAndColumn(aead: Aead, ring: Ring, ring': Ring, rowId: string, column: string, rowId': string, column': string,
                              plaintext: Bytes, nonce: Nonce)
    requires aead.Ideal() && aead.Authentic({BuildAad(rowId, column), BuildAad(rowId', column')}) && ring.Valid() && ring'.Valid()
    requires forall v :: v in ring.keys ==> v in ring'.keys && ring'.keys[v] == ring.keys[v]
    requires AAD_SEPARATOR !in column && AAD_SEPARATOR !in column' && rowId' != "" && column' != ""
    requires Seal(aead, ring, rowId, column, plaintext, nonce).Ok?
    ensures Open(aead, ring', rowId', column', Seal(aead, ring, rowId, column, plaintext, nonce).value)
         == if rowId == rowId' && column == column' then Ok(plaintext) else Err(AuthenticationFailed)
  {
    var blob := Seal(aead, ring, rowId, column, plaintext, nonce).value;
    SealOpens(aead, ring, rowId, column, plaintext, nonce);
    MoreKeysKeepOpening(aead, ring, ring', rowId, column, blob);
    hide Seal, Open, BuildAad;
    OpensInPlaceOnly(aead, ring', rowId, column, rowId', column', blob);
  }

  /** Any larger ring opens whatever the smaller one did, to the same plaintext. */
  lemma MoreKeysKeepOpening(aead: Aead, ring: Ring, ring': Ring, rowId: string, column: string, blob: Bytes)
    requires ring.Valid() && ring'.Valid()
    requires forall v :: v in ring.keys ==> v in ring'.keys && ring'.keys[v] == ring.keys[v]
    requires Open(aead, ring, rowId, column, blob).Ok?
    ensures Open(aead, ring', rowId, column, blob) == Open(aead, ring, rowId, column, blob)
  {
  }

  /** Rotate, given fresh random bytes and the files already in the directory (an existing one is refused). */
  function Rotated(ring: Ring, disk: map<u32, Key>, random: Key): Option<Ring> {
    if ring.current == 0 || ring.current == 0xFFFF_FFFF || ring.current + 1 in disk then None
    else Some(Ring(ring.keys[ring.current + 1 := random], ring.current + 1))
  }

  /** Rotating once for each of these keys, over a directory that holds just the ring. */
  function RotatedBy(ring: Ring, randoms: seq<Key>): Option<Ring> {
    if randoms == [] then Some(ring)
    else
      var before := RotatedBy(ring, randoms[..|randoms| - 1]);
      if before.None? then None else Rotated(before.value, before.value.keys, randoms[|randoms| - 1])
  }

  /** Rotation goes on to the last 32-bit version, but sealing only to the last one the header holds: after n rotations every
    * Seal is refused exactly when the version passed 24 bits, while everything sealed before still opens. */
  lemma {:induction false} RotationOutgrowsTheHeader(aead: Aead, ring: Ring, randoms: seq<Key>, rowId: string, column: string,
                                                     plaintext: Bytes, nonce: Nonce, blob: Bytes)
    requires ring.Valid() && rowId != "" && column != ""
    ensures RotatedBy(ring, randoms).Some? <==> ring.current + |randoms| <= 0xFFFF_FFFF
    ensures RotatedBy(ring, randoms).Some? ==>
              var ring' := RotatedBy(ring, randoms).value;
              && ring'.Valid() && ring'.current == ring.current + |randoms|
              && (forall v :: v in ring.keys ==> v in ring'.keys && ring'.keys[v] == ring.keys[v])
              && (Seal(aead, ring', rowId, column, plaintext, nonce) == Err(KeyVersionOutOfRange)
                  <==> ring.current + |randoms| > MAX_KEY_VERSION)
              && (Open(aead, ring, rowId, column, blob).Ok? ==>
                    Open(aead, ring', rowId, column, blob) == Open(aead, ring, rowId, column, blob))
  {
    hide Open;
    if randoms != [] {
      RotationOutgrowsTheHeader(aead, ring, randoms[..|randoms| - 1], rowId, column, plaintext, nonce, blob);
    }
    if RotatedBy(ring, randoms).Some? && Open(aead, ring, rowId, column, blob).Ok? {
      MoreKeysKeepOpening(aead, ring, RotatedBy(ring, randoms).value, rowId, column, blob);
    }
  }

  /** The largest key of a non-empty map. */
  ghost predicate IsLargest(v: u32, keys: map<u32, Key>) {
    v in keys && forall w :: w in keys ==> w <= v
  }

  /** LocalKeyfileProvider, with the keyring directory as a map from version to file contents. */
  class Provider {
    var keys: map<u32, Key>
    var current: u32
    var disk: map<u32, Key>
    var legacy: Option<Key>
    var firstStart: bool
    var migrated: bool

    /** The ring's keys are on disk; the directory may hold more, written by another process or by a rotation that failed
      * to close its file. */
    ghost predicate Valid()
      reads this
    {
      View().Valid() && forall v :: v in keys ==> v in disk && disk[v] == keys[v]
    }

    function View(): Ring
      reads this
    {
      Ring(keys, current)
    }

    /** NewLocalKeyfileProvider: load every version, else migrate the legacy file, else generate version 1. */
    constructor (disk: map<u32, Key>, legacy: Option<Key>, random: Key)
      requires 0 !in disk
      ensures Valid()
      ensures disk != map[] ==> keys == disk && IsLargest(current, disk) && this.legacy == legacy
      ensures disk == map[] ==> keys == map[1 := legacy.GetOr(random)] && current == 1 && this.legacy == None
      ensures migrated <==> disk == map[] && legacy.Some?
      ensures firstStart <==> disk == map[] && legacy.None?
    {
      this.disk := disk;
      this.legacy := legacy;
      keys, current, firstStart, migrated := map[], 0, false, false;
      new;
      if disk != map[] {
        LoadVersions();
      } else if legacy.Some? {
        MigrateLegacy();
      } else {
        this.disk := map[1 := random];
        keys := map[1 := random];
        current, firstStart := 1, true;
      }
    }

    /** loadVersions: read every file, current becomes the maximum. */
    method LoadVersions()
      requires disk != map[] && 0 !in disk && keys == map[]
      modifies this`keys, this`current
      ensures keys == disk && IsLargest(current, disk)
    {
      var max: u32 := 0;
      var entries := disk.Keys;
      while entries != {}
        invariant entries <= disk.Keys
        invariant keys == map v | v in disk && v !in entries :: disk[v]
        invariant forall v :: v in disk && v !in entries ==> v <= max
        invariant if entries == disk.Keys then max == 0 else max in disk && max !in entries
        decreases entries
      {
        var version :| version in entries;
        keys := keys[version := disk[version]];
        if version > max {
          max := version;
        }
        entries := entries - {version};
      }
      current := max;
    }

    method MigrateLegacy()
      requires disk == map[] && legacy.Some? && keys == map[]
      modifies this
      ensures disk == keys == map[1 := old(legacy).value] && current == 1 && legacy == None && migrated
      ensures firstStart == old(firstStart)
    {
      disk := map[1 := legacy.value];
      legacy := None;
      keys := keys[1 := disk[1]];
      current := 1;
      migrated := true;
    }

    /** Rotate; `closes` is whether closing the written file succeeds. When it does not, the file stays and the ring does not
      * hold it, so the next rotation finds the version taken. */
    method Rotate(random: Key, closes: bool) returns (version: Option<u32>)
      requires Valid()
      modifies this`keys, this`current, this`disk
      ensures Valid()
      ensures version.Some? <==> Rotated(old(View()), old(disk), random).Some? && closes
      ensures version.Some? ==> version.value == current && Some(View()) == Rotated(old(View()), old(disk), random)
      ensures version.None? ==> View() == old(View())
      ensures disk == if Rotated(old(View()), old(disk), random).Some? then old(disk)[old(current) + 1 := random] else old(disk)
    {
      if current == 0 {
        return None;
      }
      if current == 0xFFFF_FFFF {
        return None;
      }
      var next: u32 := current + 1;
      if next in disk {
        return None;
      }
      disk := disk[next := random];
      if !closes {
        return None;
      }
      keys := keys[next := random];
      current := next;
      return Some(next);
    }

    /** Versions: every loaded version once, ascending. */
    method Versions() returns (out: array<u32>)
      ensures fresh(out)
      ensures Sorted(out[..])
      ensures multiset(out[..]) == multiset(keys.Keys)
    {
      var listed: seq<u32> := [];
      var rest := keys.Keys;
      while rest != {}
        invariant rest <= keys.Keys
        invariant multiset(listed) + multiset(rest) == multiset(keys.Keys)
        decreases rest
      {
        var v :| v in rest;
        assert multiset(rest) == multiset{v} + multiset(rest - {v});
        listed := listed + [v];
        rest := rest - {v};
      }
      out := new u32[|listed|](i requires 0 <= i < |listed| => listed[i]);
      assert out[..] == listed;
      InsertionSort(out);
    }
  }

  predicate Sorted(s: seq<u32>) {
    forall i, j :: 0 <= i < j < |s| ==> s[i] <= s[j]
  }

  predicate SortedUpTo(a: array<u32>, n: nat)
    requires n <= a.Length
    reads a
  {
    forall i, j :: 0 <= i < j < n ==> a[i] <= a[j]
  }

  /** The in-place insertion sort of Versions. */
  method InsertionSort(a: array<u32>)
    modifies a
    ensures Sorted(a[..]) && multiset(a[..]) == old(multiset(a[..]))
  {
    var i := 1;
    while i < a.Length
      invariant a.Length == 0 || 1 <= i <= a.Length
      invariant i <= a.Length ==> SortedUpTo(a, i)
      invariant multiset(a[..]) == old(multiset(a[..]))
    {
      Sink(a, i);
      i := i + 1;
    }
  }

  method Sink(a: array<u32>, i: nat)
    requires 1 <= i < a.Length && SortedUpTo(a, i)
    modifies a
    ensures SortedUpTo(a, i + 1) && multiset(a[..]) == old(multiset(a[..]))
  {
    var j := i;
    while j > 0 && a[j - 1] > a[j]
      invariant 0 <= j <= i
      invariant forall p, q :: 0 <= p < q <= i && q != j ==> a[p] <= a[q]
      invariant multiset(a[..]) == old(multiset(a[..]))
    {
      a[j - 1], a[j] := a[j], a[j - 1];
      j := j - 1;
    }
  }
}
