/** The residual scanner of internal/doctor/doctor.go and the LIKE operator it relies on. */
module Like {
  const ESCAPE := '\\'
  const MAX_DETAILS := 20

  /** Backslash, percent and underscore each get a backslash before them, in one left-to-right pass. */
  function LikeEscape(s: string): string {
    if s == "" then ""
    else if s[0] == ESCAPE || s[0] == '%' || s[0] == '_' then [ESCAPE, s[0]] + LikeEscape(s[1..])
    else [s[0]] + LikeEscape(s[1..])
  }

  /** ASCII case folding, the only folding LIKE does by default. */
  function Fold(c: char): char {
    if 'A' <= c <= 'Z' then c - 'A' + 'a' else c
  }

  predicate SameFolded(a: string, b: string) {
    |a| == |b| && forall i :: 0 <= i < |a| ==> Fold(a[i]) == Fold(b[i])
  }

  /** `s LIKE pattern ESCAPE '\'`, as SQLite defines it: `%` matches any run of characters, `_` any one
    * character, the escape makes the next character literal, and a trailing escape matches nothing. */
  predicate Matches(pattern: string, s: string)
    decreases |pattern|, |s|
  {
    if pattern == "" then
      s == ""
    else if pattern[0] == '%' then
      Matches(pattern[1..], s) || (s != "" && Matches(pattern, s[1..]))
    else if pattern[0] == ESCAPE then
      |pattern| > 1 && s != "" && Fold(pattern[1]) == Fold(s[0]) && Matches(pattern[2..], s[1..])
    else
      s != "" && (pattern[0] == '_' || Fold(pattern[0]) == Fold(s[0])) && Matches(pattern[1..], s[1..])
  }

  predicate OccursAt(p: string, s: string, i: nat) {
    i + |p| <= |s| && SameFolded(p, s[i..i + |p|])
  }

  /** p occurs in s as a substring up to ASCII case. */
  predicate Contains(s: string, p: string) {
    exists i: nat :: i <= |s| && OccursAt(p, s, i)
  }

  function SearchPattern(p: string): string {
    "%" + LikeEscape(p) + "%"
  }

  lemma {:induction false} PercentSkipsAnyRun(rest: string, s: string)
    ensures Matches("%" + rest, s) <==> exists i: nat :: i <= |s| && Matches(rest, s[i..])
    decreases |s|
  {
    var pattern := "%" + rest;
    assert pattern[1..] == rest;
    assert s[0..] == s;
    if s != "" {
      PercentSkipsAnyRun(rest, s[1..]);
      forall i: nat | i <= |s[1..]| ensures s[1..][i..] == s[i + 1..] {}
      if Matches(pattern, s[1..]) {
        var i: nat :| i <= |s[1..]| && Matches(rest, s[1..][i..]);
        assert Matches(rest, s[i + 1..]);
      }
      if i: nat :| i <= |s| && Matches(rest, s[i..]) && i > 0 {
        assert s[1..][i - 1..] == s[i..];
      }
    }
  }

  /** An escaped prefix matches exactly itself, up to case. */
  lemma {:induction false} EscapedPrefixIsLiteral(p: string, rest: string, s: string)
    ensures Matches(LikeEscape(p) + rest, s) <==> OccursAt(p, s, 0) && Matches(rest, s[|p|..])
  {
    if p == "" {
      assert LikeEscape(p) + rest == rest;
      assert s[0..] == s;
    } else {
      var pattern := LikeEscape(p) + rest;
      var tail := LikeEscape(p[1..]) + rest;
      if s != "" {
        EscapedPrefixIsLiteral(p[1..], rest, s[1..]);
        OccursAtHead(p, s);
        assert |p| <= |s| ==> s[1..][|p| - 1..] == s[|p|..];
      }
      if p[0] == ESCAPE || p[0] == '%' || p[0] == '_' {
        assert pattern == [ESCAPE, p[0]] + tail;
        assert pattern[2..] == tail;
      } else {
        assert pattern == [p[0]] + tail;
        assert pattern[1..] == tail;
      }
    }
  }

  lemma OccursAtHead(p: string, s: string)
    requires p != "" && s != ""
    ensures OccursAt(p, s, 0) <==> Fold(p[0]) == Fold(s[0]) && OccursAt(p[1..], s[1..], 0)
  {
    if |p| <= |s| {
      assert s[1..][0..|p| - 1] == s[0..|p|][1..];
      if Fold(p[0]) == Fold(s[0]) && SameFolded(p[1..], s[1..][0..|p| - 1]) {
        forall i | 0 <= i < |p| ensures Fold(p[i]) == Fold(s[0..|p|][i]) {
          if i > 0 {
            assert p[i] == p[1..][i - 1];
          }
        }
      }
    }
  }

  /** Main result: the generated pattern tests exactly for containment, whatever metacharacters the identity holds. */
  lemma EscapingIsExact(p: string, s: string)
    ensures Matches(SearchPattern(p), s) <==> Contains(s, p)
  {
    var rest := LikeEscape(p) + "%";
    assert SearchPattern(p) == "%" + rest;
    PercentSkipsAnyRun(rest, s);
    forall i: nat | i <= |s|
      ensures Matches(rest, s[i..]) <==> OccursAt(p, s, i)
    {
      EscapedPrefixIsLiteral(p, "%", s[i..]);
      if i + |p| <= |s| {
        assert s[i..][0..|p|] == s[i..i + |p|];
        AnyTailMatchesPercent(s[i..][|p|..]);
      }
    }
  }

  lemma AnyTailMatchesPercent(s: string)
    ensures Matches("%", s)
  {
    PercentSkipsAnyRun("", s);
    assert "%" + "" == "%";
    assert s[|s|..] == "";
  }

  /** Without the escaping an underscore is a wildcard, so the bare identity over-matches. */
  lemma BareIdentityOverMatches()
    ensures Matches("%a_b%", "axb") && !Contains("axb", "a_b")
  {
    AnyTailMatchesPercent("");
    assert "%a_b%" == "%" + "a_b%";
    assert "a_b%"[1..] == "_b%" && "_b%"[1..] == "b%" && "b%"[1..] == "%";
    assert "axb"[1..] == "xb" && "xb"[1..] == "b" && "b"[1..] == "";
    assert Matches("b%", "b");
    assert Matches("_b%", "xb");
    assert Matches("a_b%", "axb");
    PercentSkipsAnyRun("a_b%", "axb");
    assert "axb"[0..] == "axb";
    assert !OccursAt("a_b", "axb", 0) by {
      assert "axb"[0..3][1] == 'x';
    }
  }

  /** audit_logs rows as the scan sees them. */
  datatype LogText = LogText(logId: nat, text: string)

  datatype Detail = Detail(logId: nat, identity: string)

  /** The rows that contain p, in table order. */
  function Hits(rows: seq<LogText>, p: string): seq<Detail> {
    if rows == [] then []
    else
      var last := rows[|rows| - 1];
      Hits(rows[..|rows| - 1], p) + if Contains(last.text, p) then [Detail(last.logId, p)] else []
  }

  /** Every hit of every identity, identities in query order, empty identities skipped. */
  function AllHits(ids: seq<string>, rows: seq<LogText>): seq<Detail> {
    if ids == [] then []
    else
      var last := ids[|ids| - 1];
      AllHits(ids[..|ids| - 1], rows) + if last == "" then [] else Hits(rows, last)
  }

  function Flatten(parts: seq<seq<Detail>>): seq<Detail> {
    if parts == [] then [] else Flatten(parts[..|parts| - 1]) + parts[|parts| - 1]
  }

  function Capped(details: seq<Detail>): seq<Detail> {
    if |details| <= MAX_DETAILS then details else details[..MAX_DETAILS]
  }

  lemma {:induction false} FlattenIsMonotone(parts: seq<seq<Detail>>, n: nat)
    requires n <= |parts|
    ensures Flatten(parts[..n]) <= Flatten(parts)
    decreases |parts| - n
  {
    if n < |parts| {
      assert parts[..n + 1][..n] == parts[..n];
      FlattenIsMonotone(parts, n + 1);
    } else {
      assert parts[..n] == parts;
    }
  }

  /** The matching half of scanAuditForPlatformIDs for one identity: one LIKE query. */
  method ScanIdentity(rows: seq<LogText>, p: string) returns (hits: seq<Detail>)
    ensures hits == Hits(rows, p)
  {
    hits := [];
    for i := 0 to |rows|
      invariant hits == Hits(rows[..i], p)
    {
      EscapingIsExact(p, rows[i].text);
      assert rows[..i + 1][..i] == rows[..i];
      if Matches(SearchPattern(p), rows[i].text) {
        hits := hits + [Detail(rows[i].logId, p)];
      }
    }
    assert rows[..|rows|] == rows;
  }

  /** The detail loops: nested, with the cap checked in both. */
  method CapDetails(parts: seq<seq<Detail>>) returns (details: seq<Detail>)
    ensures details == Capped(Flatten(parts))
  {
    details := [];
    var i := 0;
    while i < |parts| && |details| < MAX_DETAILS
      invariant 0 <= i <= |parts|
      invariant details == Capped(Flatten(parts[..i]))
    {
      var j := 0;
      ghost var before := Flatten(parts[..i]);
      while j < |parts[i]| && |details| < MAX_DETAILS
        invariant 0 <= j <= |parts[i]|
        invariant |before| + j <= MAX_DETAILS && details == before + parts[i][..j]
      {
        details := details + [parts[i][j]];
        j := j + 1;
      }
      assert parts[..i + 1][..i] == parts[..i];
      assert (before + parts[i])[..|before| + j] == details;
      i := i + 1;
    }
    FlattenIsMonotone(parts, i);
    assert parts[..|parts|] == parts;
  }

  /** scanAuditForPlatformIDs: the hit total, and the first MAX_DETAILS hits. The identities come from the
    * query in ascending order, which is the order the detail loop re-creates by sorting. */
  method ScanAudit(ids: seq<string>, rows: seq<LogText>) returns (totalHits: nat, details: seq<Detail>)
    ensures totalHits == |Pairs(ids, rows)|
    ensures details == Capped(AllHits(ids, rows))
    ensures details <= AllHits(ids, rows) && |details| == if totalHits <= 20 then totalHits else 20
  {
    totalHits := 0;
    var perIdentity: seq<seq<Detail>> := [];
    for i := 0 to |ids|
      invariant totalHits == |AllHits(ids[..i], rows)|
      invariant Flatten(perIdentity) == AllHits(ids[..i], rows)
    {
      assert ids[..i + 1][..i] == ids[..i];
      if ids[i] != "" {
        var hits := ScanIdentity(rows, ids[i]);
        assert (perIdentity + [hits])[..|perIdentity|] == perIdentity;
        perIdentity := perIdentity + [hits];
        totalHits := totalHits + |hits|;
      }
    }
    assert ids[..|ids|] == ids;
    TotalCountsContainments(ids, rows);
    details := CapDetails(perIdentity);
  }

  predicate Leaks(id: string, row: LogText) {
    id != "" && Contains(row.text, id)
  }

  /** The (identity, row) containments. */
  ghost function Pairs(ids: seq<string>, rows: seq<LogText>): set<(nat, nat)> {
    set i: nat, j: nat | i < |ids| && j < |rows| && Leaks(ids[i], rows[j]) :: (i, j)
  }

  /** The containments of one identity, the i-th, among the first n rows. */
  ghost function RowPairs(i: nat, p: string, rows: seq<LogText>): set<(nat, nat)> {
    set j: nat | j < |rows| && Leaks(p, rows[j]) :: (i, j)
  }

  lemma {:induction false} HitsCountRows(i: nat, p: string, rows: seq<LogText>)
    requires p != ""
    ensures |Hits(rows, p)| == |RowPairs(i, p, rows)|
  {
    if rows != [] {
      var n := |rows| - 1;
      HitsCountRows(i, p, rows[..n]);
      assert RowPairs(i, p, rows) ==
             RowPairs(i, p, rows[..n]) + if Leaks(p, rows[n]) then {(i, n)} else {};
    }
  }

  lemma PairsGrow(ids: seq<string>, id: string, rows: seq<LogText>)
    ensures Pairs(ids + [id], rows) == Pairs(ids, rows) + RowPairs(|ids|, id, rows)
    ensures Pairs(ids, rows) !! RowPairs(|ids|, id, rows)
    ensures id == "" ==> RowPairs(|ids|, id, rows) == {}
  {
    var all := ids + [id];
    forall i: nat, j: nat
      ensures (i, j) in Pairs(all, rows) <==> (i, j) in Pairs(ids, rows) || (i, j) in RowPairs(|ids|, id, rows)
    {
      assert (i, j) in Pairs(all, rows) <==> i < |all| && j < |rows| && Leaks(all[i], rows[j]);
      assert (i, j) in Pairs(ids, rows) <==> i < |ids| && j < |rows| && Leaks(ids[i], rows[j]);
      assert (i, j) in RowPairs(|ids|, id, rows) <==> i == |ids| && j < |rows| && Leaks(id, rows[j]);
    }
  }

  /** Main result: the reported total is the number of (identity, row) containments, so a row holding two
    * identities counts twice although the message calls the total a number of rows. */
  lemma {:induction false} TotalCountsContainments(ids: seq<string>, rows: seq<LogText>)
    ensures |AllHits(ids, rows)| == |Pairs(ids, rows)|
  {
    if ids != [] {
      var n := |ids| - 1;
      TotalCountsContainments(ids[..n], rows);
      PairsGrow(ids[..n], ids[n], rows);
      assert ids == ids[..n] + [ids[n]];
      if ids[n] != "" {
        HitsCountRows(n, ids[n], rows);
      }
    }
  }

  /** Folding takes the letters A to Z, and no other character, to their small ones. */
  lemma FoldIsAsciiCase(c: char, d: char)
    ensures Fold(c) == Fold(d) <==> c == d || ('A' <= c <= 'Z' && d as int == c as int + 32) || ('A' <= d <= 'Z' && c as int == d as int + 32)
  {
  }

  /** The hits are the rows at these places, which are those that contain p. */
  ghost predicate AreAt(hits: seq<Detail>, rows: seq<LogText>, p: string, at: seq<nat>) {
    && |at| == |hits| && (forall k :: 0 <= k < |at| ==> at[k] < |rows| && hits[k] == Detail(rows[at[k]].logId, p))
    && (forall j, k :: 0 <= j < k < |at| ==> at[j] < at[k])
    && forall i: nat :: i < |rows| ==> (i in at <==> Contains(rows[i].text, p))
  }

  lemma OneMoreRow(hits: seq<Detail>, rows: seq<LogText>, p: string, at: seq<nat>, row: LogText)
    requires AreAt(hits, rows, p, at)
    ensures Contains(row.text, p) ==> AreAt(hits + [Detail(row.logId, p)], rows + [row], p, at + [|rows|])
    ensures !Contains(row.text, p) ==> AreAt(hits, rows + [row], p, at)
  {
    hide Contains;
  }

  /** Main result, hits: for one identity they are the rows that contain it, by their log ids, each once and in table order. */
  lemma {:induction false} HitsAreRows(rows: seq<LogText>, p: string) returns (at: seq<nat>)
    ensures AreAt(Hits(rows, p), rows, p, at)
  {
    if rows == [] {
      at := [];
    } else {
      var n := |rows| - 1;
      at := HitsAreRows(rows[..n], p);
      assert rows == rows[..n] + [rows[n]];
      OneMoreRow(Hits(rows[..n], p), rows[..n], p, at, rows[n]);
      if Contains(rows[n].text, p) {
        at := at + [n];
      }
      hide Contains, AreAt;
    }
  }
}
