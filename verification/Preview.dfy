/** What the audit log keeps of a call's parameters (internal/execution/policy.go). Values are abstract; `show` is
  * fmt.Sprint, `encode` the JSON of the ordered key and value list. */
module Preview {
  import opened Printing
  import opened Ordering
  import Anchors
  import Audit

  datatype Policy = Policy(storeHashOnly: bool, whitelist: set<string>, sensitive: set<string>, hashed: set<string>)

  type Params<V> = map<string, V>

  datatype Shown<V> = Kept(value: V) | Text(text: string)

  /** DefaultParamsPolicy. */
  const DEFAULT := Policy(false, {}, {"content", "text", "draft", "password"}, {"content_hash"})

  const HASH_LENGTH := 8

  /** truncateHash. */
  function Truncated(s: string): string {
    if |s| > HASH_LENGTH then s[..HASH_LENGTH] + "..." else s
  }

  function Masked(s: string): string {
    "*** (length: " + Decimal(|s|) + ")"
  }

  predicate Survives(policy: Policy, key: string) {
    policy.whitelist != {} ==> key in policy.whitelist
  }

  function ShownAs<V>(policy: Policy, show: V -> string, key: string, v: V): Shown<V> {
    if key in policy.sensitive then Text(Masked(show(v)))
    else if key in policy.hashed then Text(Truncated(show(v)))
    else Kept(v)
  }

  /** The preview under a policy that keeps fields. */
  function Fields<V>(params: Params<V>, policy: Policy, show: V -> string): map<string, Shown<V>> {
    map key | key in params && Survives(policy, key) :: ShownAs(policy, show, key, params[key])
  }

  ghost predicate Lists(order: seq<string>, keys: set<string>) {
    (forall i, j :: 0 <= i < j < |order| ==> order[i] != order[j]) && forall k :: k in keys <==> k in order
  }

  function Pairs<V>(keys: seq<string>, params: Params<V>): seq<(string, V)>
    requires forall i :: 0 <= i < |keys| ==> keys[i] in params
  {
    seq(|keys|, i requires 0 <= i < |keys| => (keys[i], params[keys[i]]))
  }

  lemma SortedKeysAreKeys<V>(order: seq<string>, params: Params<V>)
    requires Lists(order, params.Keys)
    ensures forall i :: 0 <= i < |Sort(order, Anchors.Precedes)| ==> Sort(order, Anchors.Precedes)[i] in params
  {
    var sorted := Sort(order, Anchors.Precedes);
    forall i | 0 <= i < |sorted| ensures sorted[i] in params {
      assert sorted[i] in multiset(order);
    }
  }

  /** canonicalHash, for the order in which the map lists its keys. */
  function CanonicalHash<V>(params: Params<V>, order: seq<string>, sha: Audit.Hash, encode: seq<(string, V)> -> string): string
    requires Lists(order, params.Keys)
  {
    SortedKeysAreKeys(order, params);
    sha(encode(Pairs(Sort(order, Anchors.Precedes), params)))
  }

  function Previewed<V>(params: Params<V>, order: seq<string>, policy: Policy, show: V -> string, sha: Audit.Hash,
                        encode: seq<(string, V)> -> string): map<string, Shown<V>>
    requires Lists(order, params.Keys)
  {
    if policy.storeHashOnly then map["params_hash" := Text(CanonicalHash(params, order, sha, encode))]
    else Fields(params, policy, show)
  }

  /** ApplyParamsPolicy, over the map in any order. */
  method ApplyParamsPolicy<V>(params: Params<V>, order: seq<string>, policy: Policy, show: V -> string, sha: Audit.Hash,
                              encode: seq<(string, V)> -> string) returns (out: map<string, Shown<V>>)
    requires Lists(order, params.Keys)
    ensures out == Previewed(params, order, policy, show, sha, encode)
  {
    if policy.storeHashOnly {
      return map["params_hash" := Text(CanonicalHash(params, order, sha, encode))];
    }
    out := map[];
    for k := 0 to |order|
      invariant forall key :: key in out <==> key in order[..k] && Survives(policy, key)
      invariant forall key :: key in out ==> key in params && out[key] == ShownAs(policy, show, key, params[key])
    {
      var key, v := order[k], params[order[k]];
      assert order[..k + 1] == order[..k] + [key];
      if policy.whitelist != {} && key !in policy.whitelist {
        continue;
      }
      if key in policy.sensitive {
        out := out[key := Text(Masked(show(v)))];
      } else if key in policy.hashed {
        out := out[key := Text(Truncated(show(v)))];
      } else {
        out := out[key := Kept(v)];
      }
    }
    assert order[..|order|] == order;
  }

  // ---- What a preview reveals -----------------------------------------------------------------------

  /** One text, or two texts of more than eight runes with the same first eight. */
  predicate SameHead(s: string, t: string) {
    s == t || (|s| > 8 && |t| > 8 && s[..8] == t[..8])
  }

  lemma TruncatedIsHead(s: string, t: string)
    ensures Truncated(s) == Truncated(t) <==> SameHead(s, t)
  {
    assert |s| > 8 ==> Truncated(s)[..8] == s[..8];
    assert |t| > 8 ==> Truncated(t)[..8] == t[..8];
  }

  /** The two maps agree on what the policy shows of this key. */
  predicate AgreeOn<V(==)>(p: Params<V>, q: Params<V>, policy: Policy, show: V -> string, key: string) {
    (key in p <==> key in q)
    && (key in p && key in q ==>
          if key in policy.sensitive then |show(p[key])| == |show(q[key])|
          else if key in policy.hashed then SameHead(show(p[key]), show(q[key]))
          else p[key] == q[key])
  }

  lemma MaskedIsLength(s: string, t: string)
    ensures Masked(s) == Masked(t) <==> |s| == |t|
  {
    if Masked(s) == Masked(t) {
      var head := "*** (length: ";
      assert Masked(s)[|head|..|Masked(s)| - 1] == Decimal(|s|);
      assert Masked(t)[|head|..|Masked(t)| - 1] == Decimal(|t|);
      DecimalInjective(|s|, |t|);
    }
  }

  lemma ShownAgreeIff<V>(p: Params<V>, q: Params<V>, policy: Policy, show: V -> string, key: string)
    requires key in p && key in q
    ensures ShownAs(policy, show, key, p[key]) == ShownAs(policy, show, key, q[key]) <==> AgreeOn(p, q, policy, show, key)
  {
    MaskedIsLength(show(p[key]), show(q[key]));
    TruncatedIsHead(show(p[key]), show(q[key]));
    hide Masked, Truncated;
  }

  /** Main result: two parameter maps have the same preview exactly when they agree, on every key that passes the
    * whitelist, on the value, on the rune length of a sensitive field, and on the first eight runes of a hash field. */
  lemma PreviewsAgreeIff<V(!new)>(p: Params<V>, q: Params<V>, policy: Policy, show: V -> string)
    ensures Fields(p, policy, show) == Fields(q, policy, show)
       <==> forall key :: (policy.whitelist == {} || key in policy.whitelist) ==> AgreeOn(p, q, policy, show, key)
  {
    var f, g := Fields(p, policy, show), Fields(q, policy, show);
    forall key | key in p && key in q
      ensures ShownAs(policy, show, key, p[key]) == ShownAs(policy, show, key, q[key]) <==> AgreeOn(p, q, policy, show, key)
    {
      ShownAgreeIff(p, q, policy, show, key);
    }
    hide ShownAs;
    if f == g {
      forall key | Survives(policy, key) ensures AgreeOn(p, q, policy, show, key) {
        assert key in p <==> key in f;
        assert key in q <==> key in g;
        if key in p {
          assert f[key] == g[key];
        }
      }
    }
    if forall key :: Survives(policy, key) ==> AgreeOn(p, q, policy, show, key) {
      assert f.Keys == g.Keys;
      assert forall key :: key in f ==> f[key] == g[key];
    }
  }

  lemma {:induction false} DistinctCounts(order: seq<string>)
    requires forall i, j :: 0 <= i < j < |order| ==> order[i] != order[j]
    ensures forall k :: multiset(order)[k] == if k in order then 1 else 0
  {
    if order != [] {
      var n := |order| - 1;
      assert order == order[..n] + [order[n]];
      DistinctCounts(order[..n]);
    }
  }

  /** Under a hash-only policy the preview depends on neither the map's order nor anything but the map, and determines it. */
  lemma HashOnlyAgreesIff<V(!new)>(p: Params<V>, q: Params<V>, order: seq<string>, order': seq<string>, sha: Audit.Hash,
                                   encode: seq<(string, V)> -> string)
    requires Lists(order, p.Keys) && Lists(order', q.Keys)
    requires Audit.Injective(sha) && forall a, b :: encode(a) == encode(b) ==> a == b
    ensures CanonicalHash(p, order, sha, encode) == CanonicalHash(q, order', sha, encode) <==> p == q
  {
    hide Lists, Pairs;
    SortedKeysAreKeys(order, p);
    SortedKeysAreKeys(order', q);
    if p == q {
      SortedKeysAgree(order, order', p.Keys);
    }
    if Pairs(Sort(order, Anchors.Precedes), p) == Pairs(Sort(order', Anchors.Precedes), q) {
      KeysAreCovered(order, p.Keys);
      KeysAreCovered(order', q.Keys);
      PairsDetermine(Sort(order, Anchors.Precedes), p, Sort(order', Anchors.Precedes), q);
    }
  }

  lemma SortedKeysAgree(order: seq<string>, order': seq<string>, keys: set<string>)
    requires Lists(order, keys) && Lists(order', keys)
    ensures Sort(order, Anchors.Precedes) == Sort(order', Anchors.Precedes)
  {
    DistinctCounts(order);
    DistinctCounts(order');
    assert multiset(order) == multiset(order');
    Anchors.PrecedesIsTotal();
    SortsAgreeIff(order, order', Anchors.Precedes);
  }

  ghost predicate Covers(s: seq<string>, keys: set<string>) {
    forall key :: key in keys <==> exists i :: 0 <= i < |s| && s[i] == key
  }

  lemma KeysAreCovered(order: seq<string>, keys: set<string>)
    requires Lists(order, keys)
    ensures Covers(Sort(order, Anchors.Precedes), keys)
  {
    var sorted := Sort(order, Anchors.Precedes);
    forall key ensures key in order <==> exists i :: 0 <= i < |sorted| && sorted[i] == key {
      assert key in multiset(order) <==> key in multiset(sorted);
    }
  }

  lemma PairsDetermine<V>(s: seq<string>, p: Params<V>, t: seq<string>, q: Params<V>)
    requires Covers(s, p.Keys) && Covers(t, q.Keys)
    requires (forall i :: 0 <= i < |s| ==> s[i] in p) && (forall i :: 0 <= i < |t| ==> t[i] in q) && Pairs(s, p) == Pairs(t, q)
    ensures p == q
  {
    assert |Pairs(s, p)| == |s| && |Pairs(t, q)| == |t|;
    forall i | 0 <= i < |s| ensures s[i] == t[i] && p[s[i]] == q[t[i]] {
      assert Pairs(s, p)[i] == Pairs(t, q)[i];
    }
    hide Pairs;
    assert forall key :: key in p <==> key in q;
  }

  /** What a preview shows of each field that passes the whitelist: a sensitive one by the length of its text alone, a hash by its
    * first eight runes where it has more, any other as it is. A field listed as both is masked. */
  lemma PreviewShows<V>(params: Params<V>, policy: Policy, show: V -> string, key: string)
    ensures var fields := Fields(params, policy, show);
            && (key in fields <==> key in params && (policy.whitelist == {} || key in policy.whitelist))
            && (key in fields ==>
                  var text := show(params[key]);
                  fields[key] == if key in policy.sensitive then Text("*** (length: " + Decimal(|text|) + ")")
                                 else if key !in policy.hashed then Kept(params[key])
                                 else if |text| <= 8 then Text(text) else Text(text[..8] + "..."))
  {
  }

  /** Under the default policy no content, text, draft or password is shown, and no content hash in full. */
  lemma DefaultHides<V>(params: Params<V>, show: V -> string, key: string)
    requires key in params
    ensures var fields := Fields(params, DEFAULT, show);
            && key in fields
            && (key in {"content", "text", "draft", "password"} ==> fields[key] == Text("*** (length: " + Decimal(|show(params[key])|) + ")"))
            && (key == "content_hash" && |show(params[key])| > 8 ==> fields[key] == Text(show(params[key])[..8] + "..."))
  {
    PreviewShows(params, DEFAULT, show, key);
  }

  /** A hash-only preview shows the hash of the fields alone: every field once, with its value, by name ascending. */
  lemma HashOnlyShows<V>(params: Params<V>, order: seq<string>, policy: Policy, show: V -> string, sha: Audit.Hash,
                         encode: seq<(string, V)> -> string) returns (fields: seq<(string, V)>)
    requires Lists(order, params.Keys) && policy.storeHashOnly
    ensures Previewed(params, order, policy, show, sha, encode) == map["params_hash" := Text(sha(encode(fields)))]
    ensures |fields| == |order| && forall i, j :: 0 <= i < j < |fields| ==> Anchors.Precedes(fields[i].0, fields[j].0)
    ensures forall i :: 0 <= i < |fields| ==> fields[i].0 in params && fields[i].1 == params[fields[i].0]
    ensures forall key :: key in params <==> exists i :: 0 <= i < |fields| && fields[i].0 == key
  {
    SortedKeysAreKeys(order, params);
    KeysAreCovered(order, params.Keys);
    Anchors.PrecedesIsTotal();
    var sorted := Sort(order, Anchors.Precedes);
    SortSorts(order, Anchors.Precedes);
    fields := Pairs(sorted, params);
    hide Sort, Lists;
    forall key | key in params ensures exists i :: 0 <= i < |fields| && fields[i].0 == key {
      var i :| 0 <= i < |sorted| && sorted[i] == key;
      assert fields[i].0 == key;
    }
  }
}
