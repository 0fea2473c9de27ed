/**
 The determinism check of the gateway: two runs are indexed by item, each item is projected on its
 stable fields, and the projections are compared.
 */
module DeterminismCheck {

  datatype Json = Null | Bool(b: bool) | Num(r: real) | Str(s: string) | Arr(items: seq<Json>) | Obj(fields: map<string, Json>)

  type Item = map<string, Json>

  const STABLE_KEYS: set<string> := {"threat_level", "final_score", "confidence", "findings", "indicators", "errors"}
  const META_KEYS: set<string> := {"degraded", "degraded_reasons"}

  function Get(obj: Item, key: string): Json {
    if key in obj then obj[key] else Null
  }

  function OpaPart(meta: Item): Item {
    if Get(meta, "opa").Obj? then
      var opa := Get(meta, "opa").fields;
      map["opa" := Obj(map["status" := Get(opa, "status"), "allow" := Get(opa, "allow"), "reason" := Get(opa, "reason")])]
    else map[]
  }

  /** `_stable`: the recursive projection. */
  function Stable(j: Json): Json
    decreases j, 1
  {
    match j
    case Obj(obj) =>
      var out := Keep(j, STABLE_KEYS);
      if Get(obj, "metadata").Obj? then
        var outMeta := Keep(obj["metadata"], META_KEYS) + OpaPart(obj["metadata"].fields);
        if outMeta != map[] then Obj(out["metadata" := Obj(outMeta)]) else Obj(out)
      else Obj(out)
    case Arr(items) => Arr(seq(|items|, i requires 0 <= i < |items| => Stable(items[i])))
    case _ => j
  }

  /** The fields of an object under the given keys, projected. */
  function Keep(j: Json, keys: set<string>): Item
    requires j.Obj?
    decreases j, 0
  {
    map k | k in j.fields && k in keys :: Stable(j.fields[k])
  }

  lemma KeysApart()
    ensures "metadata" !in STABLE_KEYS && "opa" !in META_KEYS
  {
    assert "metadata" != "threat_level" && "metadata" != "final_score" && "metadata" != "confidence";
    assert "metadata" != "findings" && "metadata" != "indicators" && "metadata" != "errors";
    assert "opa" != "degraded" && "opa" != "degraded_reasons";
  }

  /** Every field is a fixed point of the projection. */
  ghost predicate Settled(out: Item) {
    forall k :: k in out ==> Stable(out[k]) == out[k]
  }

  /** Projecting twice is projecting once, on every JSON tree. */
  lemma {:induction false} StableIdempotent(j: Json)
    ensures Stable(Stable(j)) == Stable(j)
    decreases j, 1
  {
    match j
    case Obj(obj) =>
      var out := Keep(j, STABLE_KEYS);
      KeepSettles(j, STABLE_KEYS);
      if Get(obj, "metadata").Obj? {
        var meta := obj["metadata"];
        KeepSettles(meta, META_KEYS);
        MetaAgain(Keep(meta, META_KEYS), OpaPart(meta.fields));
        if Keep(meta, META_KEYS) + OpaPart(meta.fields) != map[] {
          ProjectedAgain(out, Keep(meta, META_KEYS) + OpaPart(meta.fields));
        } else {
          PlainAgain(out);
        }
      } else {
        PlainAgain(out);
      }
    case Arr(items) =>
      forall i | 0 <= i < |items| ensures Stable(Stable(items[i])) == Stable(items[i]) {
        StableIdempotent(items[i]);
      }
    case _ =>
  }

  lemma {:induction false} KeepSettles(j: Json, keys: set<string>)
    requires j.Obj?
    ensures Settled(Keep(j, keys)) && Keep(j, keys).Keys <= keys
    decreases j, 0
  {
    forall k | k in Keep(j, keys) ensures Stable(Keep(j, keys)[k]) == Keep(j, keys)[k] {
      StableIdempotent(j.fields[k]);
    }
  }

  /** Kept fields are kept again, whatever is added under another key. */
  lemma KeepAgain(out: Item, keys: set<string>, added: Item)
    requires Settled(out) && out.Keys <= keys && added.Keys !! keys
    ensures Keep(Obj(out + added), keys) == out
  {
  }

  lemma MetaAgain(kept: Item, opa: Item)
    requires Settled(kept) && kept.Keys <= META_KEYS && exists meta :: opa == OpaPart(meta)
    ensures Keep(Obj(kept + opa), META_KEYS) == kept && OpaPart(kept + opa) == opa
  {
    KeysApart();
    KeepAgain(kept, META_KEYS, opa);
  }

  /** An object whose stable fields are fixed points, and nothing else, is a fixed point. */
  lemma PlainAgain(out: Item)
    requires Settled(out) && out.Keys <= STABLE_KEYS
    ensures Stable(Obj(out)) == Obj(out)
  {
    KeysApart();
    KeepAgain(out, STABLE_KEYS, map[]);
    assert out + map[] == out;
  }

  lemma ProjectedAgain(out: Item, outMeta: Item)
    requires Settled(out) && out.Keys <= STABLE_KEYS && outMeta != map[]
    requires Keep(Obj(outMeta), META_KEYS) + OpaPart(outMeta) == outMeta
    ensures var j := Obj(out["metadata" := Obj(outMeta)]); Stable(j) == j
  {
    KeysApart();
    KeepAgain(out, STABLE_KEYS, map["metadata" := Obj(outMeta)]);
    assert out + map["metadata" := Obj(outMeta)] == out["metadata" := Obj(outMeta)];
  }

  // ----- What the projection tells apart -----

  /** Two trees the check cannot tell apart, said without projecting: scalars are equal, arrays agree element by
      element, objects agree under the stable keys and in the watched part of their metadata. */
  ghost predicate Alike(x: Json, y: Json)
    decreases x, 1
  {
    match x
    case Obj(_) =>
      && y.Obj? && MetaAlike(x, y)
      && AlikeUnder(x, y, {"threat_level", "final_score", "confidence", "findings", "indicators", "errors"})
    case Arr(xs) => y.Arr? && |xs| == |y.items| && forall i :: 0 <= i < |xs| ==> Alike(xs[i], y.items[i])
    case _ => x == y
  }

  /** Under each key both objects have nothing, or both something alike. */
  ghost predicate AlikeUnder(x: Json, y: Json, keys: set<string>)
    requires x.Obj? && y.Obj?
    decreases x, 0
  {
    forall k :: k in keys ==>
      && (k in x.fields <==> k in y.fields)
      && (k in x.fields && k in y.fields ==> Alike(x.fields[k], y.fields[k]))
  }

  /** Metadata that holds nothing the check watches. */
  ghost predicate Bare(meta: Item) {
    "degraded" !in meta && "degraded_reasons" !in meta && !Get(meta, "opa").Obj?
  }

  ghost predicate OpaAlike(a: Item, b: Item) {
    && (Get(a, "opa").Obj? <==> Get(b, "opa").Obj?)
    && (Get(a, "opa").Obj? && Get(b, "opa").Obj? ==>
          forall k :: k in {"status", "allow", "reason"} ==> Get(a["opa"].fields, k) == Get(b["opa"].fields, k))
  }

  /** Metadata that is no object, or holds nothing watched, is as good as none. */
  ghost predicate MetaAlike(x: Json, y: Json)
    requires x.Obj? && y.Obj?
    decreases x, 0
  {
    if Get(x.fields, "metadata").Obj? && Get(y.fields, "metadata").Obj? then
      var a, b := x.fields["metadata"], y.fields["metadata"];
      AlikeUnder(a, b, {"degraded", "degraded_reasons"}) && OpaAlike(a.fields, b.fields)
    else
      && (Get(x.fields, "metadata").Obj? ==> Bare(x.fields["metadata"].fields))
      && (Get(y.fields, "metadata").Obj? ==> Bare(y.fields["metadata"].fields))
  }

  /** The watched part of an object's metadata. */
  ghost function WatchedMeta(x: Json): Item
    requires x.Obj?
  {
    if Get(x.fields, "metadata").Obj? then Keep(x.fields["metadata"], META_KEYS) + OpaPart(x.fields["metadata"].fields)
    else map[]
  }

  lemma StableObject(x: Json)
    requires x.Obj?
    ensures Stable(x) == Obj(if WatchedMeta(x) != map[] then Keep(x, STABLE_KEYS)["metadata" := Obj(WatchedMeta(x))]
                             else Keep(x, STABLE_KEYS))
  {
  }

  lemma ExtendedEqual(a: Item, ma: Item, b: Item, mb: Item)
    requires "metadata" !in a && "metadata" !in b
    ensures (if ma != map[] then a["metadata" := Obj(ma)] else a) == (if mb != map[] then b["metadata" := Obj(mb)] else b)
            <==> a == b && ma == mb
  {
    var x := if ma != map[] then a["metadata" := Obj(ma)] else a;
    var y := if mb != map[] then b["metadata" := Obj(mb)] else b;
    if x == y {
      assert "metadata" in x <==> ma != map[];
      assert "metadata" in y <==> mb != map[];
      assert ma == mb;
      assert a == x - {"metadata"} && b == y - {"metadata"};
    }
  }

  lemma OpaExactly(a: Item, b: Item)
    ensures OpaPart(a) == OpaPart(b) <==> OpaAlike(a, b)
  {
    if Get(a, "opa").Obj? && Get(b, "opa").Obj? {
      var x, y := OpaPart(a)["opa"].fields, OpaPart(b)["opa"].fields;
      if OpaPart(a) == OpaPart(b) {
        assert x == y;
        assert x["status"] == y["status"] && x["allow"] == y["allow"] && x["reason"] == y["reason"];
      }
      if OpaAlike(a, b) {
        assert "status" in {"status", "allow", "reason"} && "allow" in {"status", "allow", "reason"};
        assert "reason" in {"status", "allow", "reason"};
        assert x == y;
      }
    } else if Get(a, "opa").Obj? {
      assert "opa" in OpaPart(a) && "opa" !in OpaPart(b);
    } else if Get(b, "opa").Obj? {
      assert "opa" in OpaPart(b) && "opa" !in OpaPart(a);
    }
  }

  /** Kept fields and the policy part do not overlap. */
  lemma JoinedEqual(a: Item, oa: Item, b: Item, ob: Item)
    requires a.Keys <= META_KEYS && b.Keys <= META_KEYS && oa.Keys <= {"opa"} && ob.Keys <= {"opa"}
    ensures a + oa == b + ob <==> a == b && oa == ob
  {
    KeysApart();
    if a + oa == b + ob {
      assert a == (a + oa) - {"opa"} && b == (b + ob) - {"opa"};
      assert oa == (a + oa) - META_KEYS && ob == (b + ob) - META_KEYS;
    }
  }

  lemma BareExactly(meta: Json)
    requires meta.Obj?
    ensures Keep(meta, META_KEYS) + OpaPart(meta.fields) == map[] <==> Bare(meta.fields)
  {
    var kept, opa := Keep(meta, META_KEYS), OpaPart(meta.fields);
    assert Get(meta.fields, "opa").Obj? ==> "opa" in kept + opa;
    if kept + opa == map[] {
      forall k | k in META_KEYS ensures k !in meta.fields {
        assert k !in kept + opa;
      }
    }
    if Bare(meta.fields) {
      assert kept == map[] && opa == map[];
    }
  }

  /** Two trees project to the same exactly when they are alike. */
  lemma {:induction false} StableExactly(x: Json, y: Json)
    ensures Stable(x) == Stable(y) <==> Alike(x, y)
    decreases x, 1
  {
    match x
    case Obj(_) =>
      if y.Obj? {
        StableObject(x);
        StableObject(y);
        KeysApart();
        ExtendedEqual(Keep(x, STABLE_KEYS), WatchedMeta(x), Keep(y, STABLE_KEYS), WatchedMeta(y));
        KeepExactly(x, y, STABLE_KEYS);
        MetaExactly(x, y);
      }
    case Arr(xs) =>
      assert |Stable(x).items| == |xs| && (y.Arr? ==> |Stable(y).items| == |y.items|);
      if y.Arr? && |xs| == |y.items| {
        forall i | 0 <= i < |xs| ensures Stable(xs[i]) == Stable(y.items[i]) <==> Alike(xs[i], y.items[i]) {
          StableExactly(xs[i], y.items[i]);
        }
        ArraysEqual(xs, y.items);
      }
    case _ =>
  }

  lemma ArraysEqual(xs: seq<Json>, ys: seq<Json>)
    requires |xs| == |ys|
    ensures Stable(Arr(xs)) == Stable(Arr(ys)) <==> forall i :: 0 <= i < |xs| ==> Stable(xs[i]) == Stable(ys[i])
  {
    var a, b := Stable(Arr(xs)).items, Stable(Arr(ys)).items;
    assert forall i :: 0 <= i < |xs| ==> a[i] == Stable(xs[i]) && b[i] == Stable(ys[i]);
  }

  lemma {:induction false} KeepExactly(x: Json, y: Json, keys: set<string>)
    requires x.Obj? && y.Obj?
    ensures Keep(x, keys) == Keep(y, keys) <==> AlikeUnder(x, y, keys)
    decreases x, 0
  {
    var a, b := Keep(x, keys), Keep(y, keys);
    forall k | k in keys && k in x.fields && k in y.fields
      ensures a[k] == b[k] <==> Alike(x.fields[k], y.fields[k])
    {
      StableExactly(x.fields[k], y.fields[k]);
    }
    if a == b {
      forall k | k in keys ensures k in x.fields <==> k in y.fields {
        assert k in a <==> k in b;
      }
    }
    if AlikeUnder(x, y, keys) {
      assert a.Keys == b.Keys;
    }
  }

  lemma {:induction false} MetaExactly(x: Json, y: Json)
    requires x.Obj? && y.Obj?
    ensures WatchedMeta(x) == WatchedMeta(y) <==> MetaAlike(x, y)
    decreases x, 0
  {
    var inX, inY := Get(x.fields, "metadata").Obj?, Get(y.fields, "metadata").Obj?;
    if inX && inY {
      var a, b := x.fields["metadata"], y.fields["metadata"];
      KeepExactly(a, b, META_KEYS);
      OpaExactly(a.fields, b.fields);
      JoinedEqual(Keep(a, META_KEYS), OpaPart(a.fields), Keep(b, META_KEYS), OpaPart(b.fields));
    } else {
      if inX {
        BareExactly(x.fields["metadata"]);
      }
      if inY {
        BareExactly(y.fields["metadata"]);
      }
    }
  }

  // ----- Keys and indexes -----

  predicate Truthy(j: Json) {
    match j
    case Null => false
    case Bool(b) => b
    case Num(r) => r != 0.0
    case Str(s) => s != []
    case Arr(items) => items != []
    case Obj(fields) => fields != map[]
  }

  /** What Python takes for false. */
  lemma FalsyExactly(j: Json)
    ensures !Truthy(j) <==> j == Null || j == Bool(false) || j == Num(0.0) || j == Str("") || j == Arr([]) || j == Obj(map[])
  {
  }

  /** How identifiers are rendered and how the fallback digest is taken is left to the host. */
  datatype Host = Host(render: Json -> string, digest: Json -> string)

  predicate HasEventId(obj: Item) {
    Get(obj, "event").Obj? && Truthy(Get(obj["event"].fields, "id"))
  }

  function Core(obj: Item): Item {
    map k | k in obj && k in STABLE_KEYS :: obj[k]
  }

  function Prefix(obj: Item): string {
    if Get(obj, "file_path").Str? then "file:" else if HasEventId(obj) then "event:" else "hash:"
  }

  function Suffix(host: Host, obj: Item): string {
    if Get(obj, "file_path").Str? then obj["file_path"].s
    else if HasEventId(obj) then host.render(Get(obj["event"].fields, "id"))
    else host.digest(Obj(Core(obj)))
  }

  /** `_get_key`. */
  function Key(host: Host, obj: Item): string {
    Prefix(obj) + Suffix(host, obj)
  }

  type Index = map<string, Item>

  /** Later items replace earlier ones with the same key. */
  function IndexOf(host: Host, items: seq<Item>): Index {
    if items == [] then map[]
    else IndexOf(host, items[..|items| - 1])[Key(host, items[|items| - 1]) := items[|items| - 1]]
  }

  /** `_index`. */
  method BuildIndex(host: Host, items: seq<Item>) returns (out: Index)
    ensures out == IndexOf(host, items)
  {
    out := map[];
    for i := 0 to |items|
      invariant out == IndexOf(host, items[..i])
    {
      assert items[..i + 1][..i] == items[..i];
      out := out[Key(host, items[i]) := items[i]];
    }
    assert items[..|items|] == items;
  }

  /** What is compared of an item: its result, or the item itself. */
  function ResultOf(item: Item): Json {
    if "result" in item then item["result"] else Obj(item)
  }

  function Projection(item: Item): Json {
    Stable(ResultOf(item))
  }

  /** The items' results, or without a result the items themselves, are alike. */
  ghost predicate ItemsAlike(x: Item, y: Item) {
    if "result" in x then Alike(x["result"], if "result" in y then y["result"] else Obj(y))
    else Alike(Obj(x), if "result" in y then y["result"] else Obj(y))
  }

  /** The same keys, and alike under each. */
  ghost predicate Agree(b: Index, c: Index) {
    b.Keys == c.Keys && forall k :: k in b && k in c ==> ItemsAlike(b[k], c[k])
  }

  datatype Verdict = Verdict(missingInBaseline: nat, missingInCandidate: nat, mismatches: nat, ok: bool)

  /** Keys of both runs whose results are not alike. */
  ghost function Differing(b: Index, c: Index): set<string> {
    set k | k in b && k in c && !ItemsAlike(b[k], c[k])
  }

  datatype Finding = MissingInBaseline | MissingInCandidate | Mismatch | Same

  /** One key of the comparison loop. */
  function Inspect(b: Index, c: Index, k: string): Finding {
    if k !in b then MissingInBaseline
    else if k !in c then MissingInCandidate
    else if Projection(b[k]) != Projection(c[k]) then Mismatch
    else Same
  }

  ghost function Found(findings: map<string, Finding>, f: Finding): set<string> {
    set k | k in findings && findings[k] == f
  }

  /** The counters of the comparison loop. */
  method Tally(findings: map<string, Finding>) returns (noBase: nat, noCand: nat, mismatches: nat)
    ensures noBase == |Found(findings, MissingInBaseline)|
    ensures noCand == |Found(findings, MissingInCandidate)|
    ensures mismatches == |Found(findings, Mismatch)|
  {
    var rest := findings;
    noBase, noCand, mismatches := 0, 0, 0;
    while rest.Keys != {}
      invariant noBase + |Found(rest, MissingInBaseline)| == |Found(findings, MissingInBaseline)|
      invariant noCand + |Found(rest, MissingInCandidate)| == |Found(findings, MissingInCandidate)|
      invariant mismatches + |Found(rest, Mismatch)| == |Found(findings, Mismatch)|
      decreases rest.Keys
    {
      var k :| k in rest.Keys;
      FoundWithout(rest, k, MissingInBaseline);
      FoundWithout(rest, k, MissingInCandidate);
      FoundWithout(rest, k, Mismatch);
      match rest[k] {
        case MissingInBaseline => noBase := noBase + 1;
        case MissingInCandidate => noCand := noCand + 1;
        case Mismatch => mismatches := mismatches + 1;
        case Same =>
      }
      rest := rest - {k};
    }
    assert Found(rest, MissingInBaseline) == {} && Found(rest, MissingInCandidate) == {} && Found(rest, Mismatch) == {};
  }

  lemma FoundWithout(findings: map<string, Finding>, k: string, f: Finding)
    requires k in findings
    ensures |Found(findings, f)| == |Found(findings - {k}, f)| + if findings[k] == f then 1 else 0
  {
    var fewer := Found(findings - {k}, f);
    assert Found(findings, f) == if findings[k] == f then fewer + {k} else fewer;
  }

  lemma FindingsMean(b: Index, c: Index, findings: map<string, Finding>)
    requires findings.Keys == b.Keys + c.Keys && forall k :: k in findings ==> findings[k] == Inspect(b, c, k)
    ensures Found(findings, MissingInBaseline) == c.Keys - b.Keys
    ensures Found(findings, MissingInCandidate) == b.Keys - c.Keys
    ensures Found(findings, Mismatch) == Differing(b, c)
  {
    forall k | k in b && k in c ensures Projection(b[k]) == Projection(c[k]) <==> ItemsAlike(b[k], c[k]) {
      StableExactly(ResultOf(b[k]), ResultOf(c[k]));
    }
  }

  /** The report: `ok` holds exactly when the keys are the same and the results under each are alike. */
  method Compare(b: Index, c: Index) returns (v: Verdict)
    ensures v.ok <==> Agree(b, c)
    ensures v.missingInBaseline == |c.Keys - b.Keys| && v.missingInCandidate == |b.Keys - c.Keys|
    ensures v.mismatches == |Differing(b, c)|
  {
    var findings := map k | k in b.Keys + c.Keys :: Inspect(b, c, k);
    FindingsMean(b, c, findings);
    var noBase, noCand, mismatches := Tally(findings);
    NoneDiffer(b, c);
    v := Verdict(noBase, noCand, mismatches, noBase == 0 && noCand == 0 && mismatches == 0);
  }

  lemma NoneDiffer(b: Index, c: Index)
    ensures |c.Keys - b.Keys| == 0 && |b.Keys - c.Keys| == 0 && |Differing(b, c)| == 0 <==> Agree(b, c)
  {
    if |c.Keys - b.Keys| == 0 && |b.Keys - c.Keys| == 0 && |Differing(b, c)| == 0 {
      assert c.Keys - b.Keys == {} && b.Keys - c.Keys == {};
      forall k | k in b && k in c ensures ItemsAlike(b[k], c[k]) {
        assert k !in Differing(b, c);
      }
    }
    if Agree(b, c) {
      assert c.Keys - b.Keys == {} && b.Keys - c.Keys == {} && Differing(b, c) == {};
    }
  }

  ghost predicate RunsAgree(host: Host, a: seq<Item>, b: seq<Item>) {
    Agree(IndexOf(host, a), IndexOf(host, b))
  }

  /** Both runs indexed, then compared. */
  method CompareRuns(host: Host, baseline: seq<Item>, candidate: seq<Item>) returns (v: Verdict)
    ensures v.ok <==> RunsAgree(host, baseline, candidate)
  {
    var b := BuildIndex(host, baseline);
    var c := BuildIndex(host, candidate);
    v := Compare(b, c);
  }

  lemma AgreeByProjection(b: Index, c: Index)
    ensures Agree(b, c) <==> b.Keys == c.Keys && forall k :: k in b && k in c ==> Projection(b[k]) == Projection(c[k])
  {
    forall k | k in b && k in c ensures Projection(b[k]) == Projection(c[k]) <==> ItemsAlike(b[k], c[k]) {
      StableExactly(ResultOf(b[k]), ResultOf(c[k]));
    }
  }

  /** Agreement of runs is an equivalence. */
  lemma AgreementIsEquivalence(host: Host, a: seq<Item>, b: seq<Item>, c: seq<Item>)
    ensures RunsAgree(host, a, a)
    ensures RunsAgree(host, a, b) ==> RunsAgree(host, b, a)
    ensures RunsAgree(host, a, b) && RunsAgree(host, b, c) ==> RunsAgree(host, a, c)
  {
    var x, y, z := IndexOf(host, a), IndexOf(host, b), IndexOf(host, c);
    AgreeByProjection(x, x);
    AgreeByProjection(x, y);
    AgreeByProjection(y, x);
    AgreeByProjection(y, z);
    AgreeByProjection(x, z);
    if Agree(x, y) && Agree(y, z) {
      forall k | k in x && k in z ensures Projection(x[k]) == Projection(z[k]) {
        assert k in y;
      }
    }
  }

  ghost predicate DistinctKeys(host: Host, items: seq<Item>) {
    forall i, j :: 0 <= i < j < |items| ==> Key(host, items[i]) != Key(host, items[j])
  }

  /** Items with the same key are the same item. */
  ghost predicate OneItemPerKey(host: Host, items: seq<Item>) {
    forall x, y :: x in items && y in items && Key(host, x) == Key(host, y) ==> x == y
  }

  lemma {:induction false} IndexContents(host: Host, items: seq<Item>, k: string)
    ensures k in IndexOf(host, items) ==> IndexOf(host, items)[k] in items && Key(host, IndexOf(host, items)[k]) == k
    ensures forall x :: x in items && Key(host, x) == k ==> k in IndexOf(host, items)
  {
    if items != [] {
      var init := items[..|items| - 1];
      IndexContents(host, init, k);
      assert items == init + [items[|items| - 1]];
    }
  }

  /** The index holds, under each key, the last item of the run with that key. */
  lemma {:induction false} IndexIsLast(host: Host, items: seq<Item>, i: nat)
    requires i < |items| && forall j :: i < j < |items| ==> Key(host, items[j]) != Key(host, items[i])
    ensures var k := Key(host, items[i]); k in IndexOf(host, items) && IndexOf(host, items)[k] == items[i]
  {
    var n := |items| - 1;
    if i < n {
      assert items[..n][i] == items[i];
      IndexIsLast(host, items[..n], i);
    }
  }

  /** What identifies an item: its path if it is text, else the rendering of a usable event id, else the digest of its
      stable fields. Items identified in different ways never share a key. */
  ghost predicate SameIdentity(host: Host, a: Item, b: Item) {
    if Get(a, "file_path").Str? || Get(b, "file_path").Str? then Get(a, "file_path") == Get(b, "file_path")
    else if HasEventId(a) || HasEventId(b) then
      HasEventId(a) && HasEventId(b) && host.render(Get(a["event"].fields, "id")) == host.render(Get(b["event"].fields, "id"))
    else host.digest(Obj(Core(a))) == host.digest(Obj(Core(b)))
  }

  lemma PrefixesApart(x: string, y: string, z: string)
    ensures "file:" + x != "event:" + y && "file:" + x != "hash:" + z && "event:" + y != "hash:" + z
  {
    assert ("file:" + x)[0] == 'f' && ("event:" + y)[0] == 'e' && ("hash:" + z)[0] == 'h';
  }

  lemma PrefixCancels(p: string, x: string, y: string)
    ensures p + x == p + y <==> x == y
  {
    assert (p + x)[|p|..] == x && (p + y)[|p|..] == y;
  }

  /** Two items share a key exactly when they have the same identity. */
  lemma KeysExactly(host: Host, a: Item, b: Item)
    ensures Key(host, a) == Key(host, b) <==> SameIdentity(host, a, b)
  {
    PrefixesApart(Suffix(host, a), Suffix(host, b), Suffix(host, b));
    PrefixesApart(Suffix(host, b), Suffix(host, a), Suffix(host, a));
    PrefixesApart(Suffix(host, a), Suffix(host, a), Suffix(host, b));
    PrefixesApart(Suffix(host, b), Suffix(host, b), Suffix(host, a));
    PrefixCancels("file:", Suffix(host, a), Suffix(host, b));
    PrefixCancels("event:", Suffix(host, a), Suffix(host, b));
    PrefixCancels("hash:", Suffix(host, a), Suffix(host, b));
  }

  /** A reordered run with distinct keys compares equal to the run. */
  lemma ReorderedRunAgrees(host: Host, a: seq<Item>, b: seq<Item>)
    requires DistinctKeys(host, a) && multiset(a) == multiset(b)
    ensures IndexOf(host, a) == IndexOf(host, b) && RunsAgree(host, a, b)
  {
    ReorderedIndex(host, a, b);
    AgreementIsEquivalence(host, a, a, a);
  }

  lemma ReorderedIndex(host: Host, a: seq<Item>, b: seq<Item>)
    requires DistinctKeys(host, a) && multiset(a) == multiset(b)
    ensures IndexOf(host, a) == IndexOf(host, b)
  {
    var x, y := IndexOf(host, a), IndexOf(host, b);
    assert OneItemPerKey(host, a);
    forall it ensures it in a <==> it in b {
      assert it in a <==> it in multiset(a);
      assert it in b <==> it in multiset(b);
    }
    forall k ensures k in x <==> k in y
             ensures k in x && k in y ==> x[k] == y[k]
    {
      IndexContents(host, a, k);
      IndexContents(host, b, k);
    }
    assert x == y;
  }
}
