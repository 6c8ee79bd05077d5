/** The roll-up of a covenant's snapshot hashes into one commitment (internal/gittwin/anchors.go). */
module Anchors {
  import opened Ordering
  import Audit

  const NEWLINE := '\n'

  /** sort.Strings. */
  predicate Precedes(s: string, t: string) {
    if s == "" then true
    else if t == "" then false
    else s[0] < t[0] || (s[0] == t[0] && Precedes(s[1..], t[1..]))
  }

  lemma {:induction false} PrecedesEither(s: string, t: string)
    ensures Precedes(s, t) || Precedes(t, s)
    ensures Precedes(s, t) && Precedes(t, s) ==> s == t
  {
    if s != "" && t != "" && s[0] == t[0] {
      PrecedesEither(s[1..], t[1..]);
      assert s == [s[0]] + s[1..] && t == [t[0]] + t[1..];
    }
  }

  lemma {:induction false} PrecedesOn(s: string, t: string, u: string)
    requires Precedes(s, t) && Precedes(t, u)
    ensures Precedes(s, u)
  {
    if s != "" && s[0] == t[0] && t[0] == u[0] {
      PrecedesOn(s[1..], t[1..], u[1..]);
    }
  }

  lemma PrecedesIsTotal()
    ensures TotalOrder(Precedes)
  {
    forall s, t ensures (Precedes(s, t) || Precedes(t, s)) && (Precedes(s, t) && Precedes(t, s) ==> s == t) {
      PrecedesEither(s, t);
    }
    forall s, t, u | Precedes(s, t) && Precedes(t, u) ensures Precedes(s, u) {
      PrecedesOn(s, t, u);
    }
  }

  function NonEmpty(hashes: seq<string>): seq<string> {
    if hashes == [] then []
    else
      var last := hashes[|hashes| - 1];
      NonEmpty(hashes[..|hashes| - 1]) + if last != "" then [last] else []
  }

  /** Each hash followed by a newline. */
  function Lines(hashes: seq<string>): string {
    if hashes == [] then "" else Lines(hashes[..|hashes| - 1]) + hashes[|hashes| - 1] + [NEWLINE]
  }

  function RollUp(sha: Audit.Hash, hashes: seq<string>): string {
    var kept := NonEmpty(hashes);
    if kept == [] then "" else sha(Lines(Sort(kept, Precedes)))
  }

  /** rollupSnapshotHash over the rows of its query. */
  method RollupSnapshotHash(sha: Audit.Hash, rows: seq<string>) returns (rollup: string)
    ensures rollup == RollUp(sha, rows)
  {
    var hashes: seq<string> := [];
    for k := 0 to |rows|
      invariant hashes == NonEmpty(rows[..k])
    {
      assert rows[..k + 1][..k] == rows[..k];
      if rows[k] != "" {
        hashes := hashes + [rows[k]];
      }
    }
    assert rows[..|rows|] == rows;
    if |hashes| == 0 {
      return "";
    }
    hashes := Sort(hashes, Precedes);
    var written := "";
    for k := 0 to |hashes|
      invariant written == Lines(hashes[..k])
    {
      assert hashes[..k + 1][..k] == hashes[..k];
      written := written + hashes[k] + [NEWLINE];
    }
    assert hashes[..|hashes|] == hashes;
    return sha(written);
  }

  // ---- What the commitment determines -------------------------------------------------------------

  predicate NewlineFree(hashes: seq<string>) {
    forall i :: 0 <= i < |hashes| ==> NEWLINE !in hashes[i]
  }

  lemma LongerHeadCutsALine(x: string, p: string, y: string, q: string)
    requires x + p == y + q && (x == "" || x[|x| - 1] == NEWLINE)
    ensures |x| > |y| ==> NEWLINE in q
  {
    if |x| > |y| {
      assert (x + p)[|x| - 1] == x[|x| - 1];
      assert (y + q)[|x| - 1] == q[|x| - 1 - |y|];
    }
  }

  /** The last line is read back from the end. */
  lemma LastLineIsReadBack(x: string, p: string, y: string, q: string)
    requires NEWLINE !in p && NEWLINE !in q
    requires x == "" || x[|x| - 1] == NEWLINE
    requires y == "" || y[|y| - 1] == NEWLINE
    requires x + p + [NEWLINE] == y + q + [NEWLINE]
    ensures x == y && p == q
  {
    assert (x + p + [NEWLINE])[..|x + p|] == x + p;
    assert (y + q + [NEWLINE])[..|y + q|] == y + q;
    LongerHeadCutsALine(x, p, y, q);
    LongerHeadCutsALine(y, q, x, p);
    assert (x + p)[..|x|] == x && (x + p)[|x|..] == p;
    assert (y + q)[..|y|] == y && (y + q)[|y|..] == q;
  }

  lemma LinesEnd(hashes: seq<string>)
    ensures hashes != [] ==> Lines(hashes) != "" && Lines(hashes)[|Lines(hashes)| - 1] == NEWLINE
    ensures hashes == [] ==> Lines(hashes) == ""
  {
  }

  lemma {:induction false} LinesInjective(s: seq<string>, t: seq<string>)
    requires NewlineFree(s) && NewlineFree(t) && Lines(s) == Lines(t)
    ensures s == t
  {
    LinesEnd(s);
    LinesEnd(t);
    if s != [] && t != [] {
      var m, n := |s| - 1, |t| - 1;
      LinesEnd(s[..m]);
      LinesEnd(t[..n]);
      LastLineIsReadBack(Lines(s[..m]), s[m], Lines(t[..n]), t[n]);
      LinesInjective(s[..m], t[..n]);
      assert s == s[..m] + [s[m]] && t == t[..n] + [t[n]];
    }
  }

  lemma {:induction false} KeptAreNewlineFree(hashes: seq<string>)
    requires NewlineFree(hashes)
    ensures NewlineFree(NonEmpty(hashes))
  {
    if hashes != [] {
      KeptAreNewlineFree(hashes[..|hashes| - 1]);
    }
  }

  lemma SortedAreNewlineFree(hashes: seq<string>)
    requires NewlineFree(hashes)
    ensures NewlineFree(Sort(hashes, Precedes))
  {
    var sorted := Sort(hashes, Precedes);
    forall i | 0 <= i < |sorted| ensures NEWLINE !in sorted[i] {
      assert sorted[i] in multiset(hashes);
    }
  }

  lemma {:induction false} NonEmptyCounts(hashes: seq<string>, h: string)
    ensures multiset(NonEmpty(hashes))[h] == if |h| > 0 then multiset(hashes)[h] else 0
  {
    if hashes != [] {
      NonEmptyCounts(hashes[..|hashes| - 1], h);
      assert hashes == hashes[..|hashes| - 1] + [hashes[|hashes| - 1]];
    }
  }

  lemma KeptAgreeIff(a: seq<string>, b: seq<string>)
    ensures multiset(NonEmpty(a)) == multiset(NonEmpty(b)) <==> forall h :: |h| > 0 ==> multiset(a)[h] == multiset(b)[h]
  {
    forall h ensures multiset(NonEmpty(a))[h] == multiset(NonEmpty(b))[h] <==> (|h| > 0 ==> multiset(a)[h] == multiset(b)[h]) {
      NonEmptyCounts(a, h);
      NonEmptyCounts(b, h);
    }
    hide NonEmpty;
  }

  lemma {:induction false} NoneKeptIff(hashes: seq<string>)
    ensures NonEmpty(hashes) == [] <==> forall h :: h in hashes ==> |h| == 0
  {
    if hashes != [] {
      NoneKeptIff(hashes[..|hashes| - 1]);
      assert hashes == hashes[..|hashes| - 1] + [hashes[|hashes| - 1]];
    }
  }

  /** Main result: two lists of snapshot hashes have the same roll-up exactly when each non-empty hash is as often in the one as in
    * the other, in whatever order; in particular the roll-up is empty exactly when all hashes are. */
  lemma RollUpIsTheMultiset(sha: Audit.Hash, a: seq<string>, b: seq<string>)
    requires Audit.Injective(sha) && (forall s :: sha(s) != "") && NewlineFree(a) && NewlineFree(b)
    ensures RollUp(sha, a) == RollUp(sha, b) <==> forall h :: |h| > 0 ==> multiset(a)[h] == multiset(b)[h]
    ensures RollUp(sha, a) == "" <==> forall h :: h in a ==> |h| == 0
  {
    hide NonEmpty, RollUp, NewlineFree;
    KeptAgreeIff(a, b);
    NoneKeptIff(a);
    KeptTellApart(sha, a, b);
  }

  lemma KeptTellApart(sha: Audit.Hash, a: seq<string>, b: seq<string>)
    requires Audit.Injective(sha) && (forall s :: sha(s) != "") && NewlineFree(a) && NewlineFree(b)
    ensures RollUp(sha, a) == RollUp(sha, b) <==> multiset(NonEmpty(a)) == multiset(NonEmpty(b))
    ensures RollUp(sha, a) == "" <==> NonEmpty(a) == []
  {
    var s, t := NonEmpty(a), NonEmpty(b);
    PrecedesIsTotal();
    KeptAreNewlineFree(a);
    KeptAreNewlineFree(b);
    SortedAreNewlineFree(s);
    SortedAreNewlineFree(t);
    SortsAgreeIff(s, t, Precedes);
    if Lines(Sort(s, Precedes)) == Lines(Sort(t, Precedes)) {
      LinesInjective(Sort(s, Precedes), Sort(t, Precedes));
    }
    assert s == [] <==> |multiset(s)| == 0;
    assert t == [] <==> |multiset(t)| == 0;
  }

  // ---- The text that is hashed ------------------------------------------------------------------

  /** The order of Go's strings: by the first character that differs, a text before what it begins. */
  lemma {:induction false} PrecedesAtFirstDifference(s: string, t: string, n: nat)
    requires n <= |s| && n <= |t| && s[..n] == t[..n]
    ensures n == |s| ==> Precedes(s, t)
    ensures n == |t| && n < |s| ==> !Precedes(s, t)
    ensures n < |s| && n < |t| && s[n] != t[n] ==> (Precedes(s, t) <==> s[n] < t[n])
  {
    if n > 0 {
      assert s[0] == s[..n][0] && t[0] == t[..n][0];
      assert s[1..][..n - 1] == s[..n][1..] && t[1..][..n - 1] == t[..n][1..];
      PrecedesAtFirstDifference(s[1..], t[1..], n - 1);
    }
  }

  lemma LinesMore(hashes: seq<string>, last: string)
    ensures Lines([]) == "" && Lines(hashes + [last]) == Lines(hashes) + last + "\n"
  {
    assert (hashes + [last])[..|hashes|] == hashes;
  }

  /** The roll-up is the hash of the non-empty hashes' lines in ascending order, however they were given. */
  lemma RollUpText(sha: Audit.Hash, hashes: seq<string>, ascending: seq<string>)
    requires ascending != [] && forall i, j :: 0 <= i < j < |ascending| ==> Precedes(ascending[i], ascending[j])
    requires forall h :: multiset(ascending)[h] == if |h| > 0 then multiset(hashes)[h] else 0
    ensures RollUp(sha, hashes) == sha(Lines(ascending))
  {
    forall h ensures multiset(NonEmpty(hashes))[h] == multiset(ascending)[h] {
      NonEmptyCounts(hashes, h);
    }
    assert multiset(NonEmpty(hashes)) == multiset(ascending);
    assert |multiset(ascending)| == |ascending|;
    PrecedesIsTotal();
    SortSorts(NonEmpty(hashes), Precedes);
    SortedIsUnique(Sort(NonEmpty(hashes), Precedes), ascending, Precedes);
  }
}
