/**
 Merging hash databases. The merged dictionary holds the very record objects of the inputs and
 updates them in place; what it ends up holding is nevertheless a fold over the records as they were.
 */
module HashMerge {
  import opened Sequences

  datatype Val = Text(s: string) | Tags(tags: seq<string>)

  type Info = map<string, Val>

  predicate Truthy(v: Val) {
    match v
    case Text(s) => s != []
    case Tags(ts) => ts != []
  }

  lemma EmptyExactly(v: Val)
    ensures !Truthy(v) <==> v == Text("") || v == Tags([])
  {
  }

  predicate HasValue(info: Info, key: string) {
    key in info && Truthy(info[key])
  }

  // ----- The fold -----

  /** `existing[key] = value` for every non-empty value whose field is missing or empty. */
  function Absorb(existing: Info, info: Info): (r: Info)
    ensures forall k :: k in r <==> k in existing || HasValue(info, k)
    ensures forall k :: k in r ==> r[k] == if HasValue(existing, k) || !HasValue(info, k) then existing[k] else info[k]
  {
    map k | k in existing.Keys + info.Keys && (k in existing || HasValue(info, k)) ::
      if HasValue(existing, k) || !HasValue(info, k) then existing[k] else info[k]
  }

  /** A record as the loaders make it: a non-empty source tag and no list of sources. */
  predicate Loaded(info: Info) {
    "source" in info && info["source"].Text? && info["source"].s != [] && "sources" !in info
  }

  function Tag(info: Info): string
    requires Loaded(info)
  {
    info["source"].s
  }

  function AddTag(tags: seq<string>, tag: string): seq<string> {
    if tag in tags then tags else tags + [tag]
  }

  /** The tag of a record being merged into, `Unknown` if it has none. */
  function OwnTag(existing: Info): string {
    if "source" in existing && existing["source"].Text? then existing["source"].s else "Unknown"
  }

  function TagsOf(existing: Info): seq<string> {
    if "sources" in existing && existing["sources"].Tags? then existing["sources"].tags else [OwnTag(existing)]
  }

  function Merge(existing: Info, info: Info): Info
    requires Loaded(info)
  {
    var e := Absorb(existing, info);
    e["sources" := Tags(AddTag(TagsOf(e), Tag(info)))]
  }

  ghost predicate AllLoaded(infos: seq<Info>) {
    forall i :: 0 <= i < |infos| ==> Loaded(infos[i])
  }

  /** What merging the records of one hash, in source order, should give. */
  ghost function Folded(infos: seq<Info>): Info
    requires infos != [] && AllLoaded(infos)
  {
    if |infos| == 1 then infos[0] else Merge(Folded(infos[..|infos| - 1]), infos[|infos| - 1])
  }

  /** Tags in first-seen order, each once. */
  ghost function DistinctTags(infos: seq<Info>): seq<string>
    requires AllLoaded(infos)
  {
    if infos == [] then [] else AddTag(DistinctTags(infos[..|infos| - 1]), Tag(infos[|infos| - 1]))
  }

  ghost predicate FirstValue(infos: seq<Info>, key: string, i: nat) {
    i < |infos| && HasValue(infos[i], key) && forall j :: 0 <= j < i ==> !HasValue(infos[j], key)
  }

  ghost predicate NoValue(infos: seq<Info>, key: string) {
    forall j :: 0 <= j < |infos| ==> !HasValue(infos[j], key)
  }

  /** A field without a value anywhere survives only from the first record. */
  lemma {:induction false} EmptyFieldSurvives(infos: seq<Info>, key: string)
    requires infos != [] && AllLoaded(infos) && key != "sources" && NoValue(infos, key)
    ensures key in Folded(infos) <==> key in infos[0]
    ensures key in infos[0] ==> Folded(infos)[key] == infos[0][key]
  {
    if |infos| > 1 {
      EmptyFieldSurvives(infos[..|infos| - 1], key);
    }
  }

  /** Every other field but the list of sources holds the first non-empty value in source order. */
  lemma {:induction false} FirstValueWins(infos: seq<Info>, key: string, i: nat)
    requires infos != [] && AllLoaded(infos) && key != "sources" && FirstValue(infos, key, i)
    ensures key in Folded(infos) && Folded(infos)[key] == infos[i][key]
  {
    var n := |infos| - 1;
    var init := infos[..n];
    if n > 0 && i == n {
      assert NoValue(init, key);
      EmptyFieldSurvives(init, key);
    } else if n > 0 {
      assert FirstValue(init, key, i);
      FirstValueWins(init, key, i);
    }
  }

  /** The list of sources exists exactly for hashes found twice or more, and holds the distinct tags in order. */
  lemma {:induction false} FoldedSources(infos: seq<Info>)
    requires infos != [] && AllLoaded(infos)
    ensures "sources" in Folded(infos) <==> |infos| >= 2
    ensures |infos| >= 2 ==> Folded(infos)["sources"] == Tags(DistinctTags(infos))
    ensures "source" in Folded(infos) && Folded(infos)["source"] == infos[0]["source"]
  {
    FirstValueWins(infos, "source", 0);
    if |infos| > 1 {
      var n := |infos| - 1;
      var init := infos[..n];
      FoldedSources(init);
      var e := Absorb(Folded(init), infos[n]);
      FirstTag(init);
      if |init| == 1 {
        assert DistinctTags(init) == [Tag(infos[0])] by {
          assert init[..0] == [];
        }
        assert TagsOf(e) == [Tag(infos[0])];
      }
    }
  }

  lemma {:induction false} FirstTag(infos: seq<Info>)
    requires infos != [] && AllLoaded(infos)
    ensures DistinctTags(infos) != []
  {
    if |infos| > 1 {
      FirstTag(infos[..|infos| - 1]);
    }
  }

  lemma {:induction false} DistinctTagsAreDistinct(infos: seq<Info>)
    requires AllLoaded(infos)
    ensures Distinct(DistinctTags(infos))
    ensures forall t :: t in DistinctTags(infos) <==> exists i :: 0 <= i < |infos| && Tag(infos[i]) == t
  {
    if infos != [] {
      var n := |infos| - 1;
      DistinctTagsAreDistinct(infos[..n]);
      var d := DistinctTags(infos[..n]);
      forall t ensures t in DistinctTags(infos) <==> exists i :: 0 <= i < |infos| && Tag(infos[i]) == t {
        if t in d {
          var i :| 0 <= i < n && Tag(infos[..n][i]) == t;
          assert Tag(infos[i]) == t;
        }
        if exists i :: 0 <= i < |infos| && Tag(infos[i]) == t {
          var i :| 0 <= i < |infos| && Tag(infos[i]) == t;
          if i < n {
            assert Tag(infos[..n][i]) == t;
          }
        }
      }
    }
  }

  // ----- The records in the heap -----

  class Record {
    var fields: Info
    constructor (fields: Info)
      ensures this.fields == fields
    {
      this.fields := fields;
    }
  }

  /** The `else` branch: fill the existing record's empty fields, then note the other source. */
  method MergeInto(existing: Record, info: Record)
    requires existing != info && Loaded(info.fields)
    requires "sources" in existing.fields ==> existing.fields["sources"].Tags?
    modifies existing
    ensures existing.fields == Merge(old(existing.fields), info.fields)
  {
    ghost var start := existing.fields;
    var keys := info.fields.Keys;
    while keys != {}
      invariant keys <= info.fields.Keys
      invariant forall k :: k in existing.fields <==> k in start || (HasValue(info.fields, k) && k !in keys)
      invariant forall k :: k in existing.fields ==>
                  existing.fields[k] == if HasValue(start, k) || !HasValue(info.fields, k) || k in keys then start[k] else info.fields[k]
      decreases keys
    {
      var key :| key in keys;
      var value := info.fields[key];
      if Truthy(value) && (key !in existing.fields || !Truthy(existing.fields[key])) {
        existing.fields := existing.fields[key := value];
      }
      keys := keys - {key};
    }
    assert existing.fields == Absorb(start, info.fields);
    if "sources" !in existing.fields {
      existing.fields := existing.fields["sources" := Tags([OwnTag(existing.fields)])];
    }
    var tags := existing.fields["sources"].tags;
    if Tag(info.fields) !in tags {
      existing.fields := existing.fields["sources" := Tags(tags + [Tag(info.fields)])];
    }
  }

  type Source = map<string, Record>

  ghost function Objects(sources: seq<Source>): set<Record> {
    set i, h | 0 <= i < |sources| && h in sources[i] :: sources[i][h]
  }

  /** Every entry of every source is a record of its own. */
  ghost predicate Separate(sources: seq<Source>) {
    forall i, j, h, k :: 0 <= i < |sources| && 0 <= j < |sources| && h in sources[i] && k in sources[j] && (i != j || h != k) ==>
      sources[i][h] != sources[j][k]
  }

  type Snapshot = seq<map<string, Info>>

  /** The contents of all records at one moment. */
  ghost function Contents(sources: seq<Source>): (snap: Snapshot)
    reads Objects(sources)
    ensures |snap| == |sources|
    ensures forall i :: 0 <= i < |sources| ==>
              snap[i].Keys == sources[i].Keys && forall h :: h in sources[i] ==> snap[i][h] == sources[i][h].fields
  {
    seq(|sources|, i requires 0 <= i < |sources| reads Objects(sources) => map h | h in sources[i] :: sources[i][h].fields)
  }

  ghost predicate SnapshotLoaded(snap: Snapshot) {
    forall i, h :: 0 <= i < |snap| && h in snap[i] ==> Loaded(snap[i][h])
  }

  /** The records of one hash in the first `n` sources, in source order. */
  ghost function Infos(snap: Snapshot, n: nat, hash: string): (infos: seq<Info>)
    requires n <= |snap|
    ensures SnapshotLoaded(snap) ==> AllLoaded(infos)
  {
    if n == 0 then []
    else Infos(snap, n - 1, hash) + if hash in snap[n - 1] then [snap[n - 1][hash]] else []
  }

  // ----- The merge on contents: which record of a hash is the shared one, and what all records hold -----

  type Owners = map<string, nat>

  ghost predicate SameKeys(snap: Snapshot, cur: Snapshot) {
    |cur| == |snap| && forall i :: 0 <= i < |snap| ==> cur[i].Keys == snap[i].Keys
  }

  /** The hash's first record among the first `n` sources is its owner and holds the fold of all of them. */
  ghost predicate MergedUpTo(snap: Snapshot, cur: Snapshot, owners: Owners, hash: string, n: nat)
    requires n <= |snap| && SnapshotLoaded(snap) && SameKeys(snap, cur)
  {
    && (hash in owners <==> Infos(snap, n, hash) != [])
    && (hash in owners ==>
          && owners[hash] < n && hash in snap[owners[hash]]
          && (forall j :: 0 <= j < owners[hash] ==> hash !in snap[j])
          && cur[owners[hash]][hash] == Folded(Infos(snap, n, hash)))
  }

  ghost predicate AllMerged(snap: Snapshot, cur: Snapshot, owners: Owners, n: nat)
    requires n <= |snap| && SnapshotLoaded(snap) && SameKeys(snap, cur)
  {
    forall hash :: MergedUpTo(snap, cur, owners, hash, n)
  }

  /** Records that own no hash are as they were. */
  ghost predicate OthersUntouched(snap: Snapshot, cur: Snapshot, owners: Owners)
    requires SameKeys(snap, cur)
  {
    forall i, h :: 0 <= i < |snap| && h in snap[i] && !(h in owners && owners[h] == i) ==> cur[i][h] == snap[i][h]
  }

  /** How many sources have been considered for a hash while source `i` still has `keys` to go. */
  ghost function Considered(snap: Snapshot, i: nat, keys: set<string>, hash: string): (n: nat)
    requires i < |snap|
    ensures n <= |snap|
  {
    if hash in snap[i] && hash !in keys then i + 1 else i
  }

  ghost predicate Merging(snap: Snapshot, cur: Snapshot, owners: Owners, i: nat, keys: set<string>)
    requires i < |snap| && SnapshotLoaded(snap) && SameKeys(snap, cur)
  {
    && OthersUntouched(snap, cur, owners)
    && forall hash :: MergedUpTo(snap, cur, owners, hash, Considered(snap, i, keys, hash))
  }

  lemma {:induction false} InfosEmpty(snap: Snapshot, n: nat, hash: string)
    requires n <= |snap|
    ensures Infos(snap, n, hash) == [] <==> forall j :: 0 <= j < n ==> hash !in snap[j]
  {
    if n > 0 {
      InfosEmpty(snap, n - 1, hash);
    }
  }

  lemma FoldStep(snap: Snapshot, i: nat, hash: string)
    requires i < |snap| && SnapshotLoaded(snap) && hash in snap[i]
    ensures var infos := Infos(snap, i, hash);
            && Infos(snap, i + 1, hash) == infos + [snap[i][hash]]
            && Folded(Infos(snap, i + 1, hash)) == (if infos == [] then snap[i][hash] else Merge(Folded(infos), snap[i][hash]))
            && (infos != [] && "sources" in Folded(infos) ==> Folded(infos)["sources"].Tags?)
  {
    var infos := Infos(snap, i, hash);
    var all := Infos(snap, i + 1, hash);
    assert all[..|all| - 1] == infos;
    if infos != [] {
      FoldedSources(infos);
    }
  }

  ghost function Written(cur: Snapshot, o: nat, h: string, value: Info): (r: Snapshot)
    requires o < |cur|
  {
    cur[o := cur[o][h := value]]
  }

  /** A hash met for the first time. */
  lemma NewHash(snap: Snapshot, cur: Snapshot, owners: Owners, i: nat, keys: set<string>, h: string)
    requires i < |snap| && SnapshotLoaded(snap) && SameKeys(snap, cur) && Merging(snap, cur, owners, i, keys)
    requires h in keys && h in snap[i] && h !in owners
    ensures Merging(snap, cur, owners[h := i], i, keys - {h})
  {
    var now := owners[h := i];
    assert MergedUpTo(snap, cur, owners, h, Considered(snap, i, keys, h));
    FirstRecord(snap, cur, owners, i, h);
    forall k ensures MergedUpTo(snap, cur, now, k, Considered(snap, i, keys - {h}, k)) {
      if k != h {
        assert MergedUpTo(snap, cur, owners, k, Considered(snap, i, keys, k));
      }
    }
  }

  lemma FirstRecord(snap: Snapshot, cur: Snapshot, owners: Owners, i: nat, h: string)
    requires i < |snap| && SnapshotLoaded(snap) && SameKeys(snap, cur) && OthersUntouched(snap, cur, owners)
    requires h in snap[i] && h !in owners && MergedUpTo(snap, cur, owners, h, i)
    ensures MergedUpTo(snap, cur, owners[h := i], h, i + 1)
  {
    InfosEmpty(snap, i, h);
    FoldStep(snap, i, h);
  }

  lemma OldHashFacts(snap: Snapshot, cur: Snapshot, owners: Owners, i: nat, keys: set<string>, h: string)
    requires i < |snap| && SnapshotLoaded(snap) && SameKeys(snap, cur) && Merging(snap, cur, owners, i, keys)
    requires h in keys && h in snap[i] && h in owners
    ensures owners[h] < i && h in cur[owners[h]] && h in cur[i] && cur[i][h] == snap[i][h]
    ensures "sources" in cur[owners[h]][h] ==> cur[owners[h]][h]["sources"].Tags?
    ensures Merge(cur[owners[h]][h], cur[i][h]) == Folded(Infos(snap, i + 1, h))
  {
    FoldStep(snap, i, h);
    assert MergedUpTo(snap, cur, owners, h, Considered(snap, i, keys, h));
  }

  /** A write to one hash leaves what is known of another hash alone. */
  lemma OtherHash(snap: Snapshot, cur: Snapshot, owners: Owners, o: nat, h: string, value: Info, k: string, n: nat)
    requires n <= |snap| && SnapshotLoaded(snap) && SameKeys(snap, cur) && o < |cur| && h in cur[o] && k != h
    requires MergedUpTo(snap, cur, owners, k, n)
    ensures SameKeys(snap, Written(cur, o, h, value)) && MergedUpTo(snap, Written(cur, o, h, value), owners, k, n)
  {
  }

  lemma WriteKeepsOthers(snap: Snapshot, cur: Snapshot, owners: Owners, h: string, value: Info)
    requires SameKeys(snap, cur) && OthersUntouched(snap, cur, owners)
    requires h in owners && owners[h] < |cur| && h in cur[owners[h]]
    ensures SameKeys(snap, Written(cur, owners[h], h, value))
    ensures OthersUntouched(snap, Written(cur, owners[h], h, value), owners)
  {
  }

  /** A hash met again: its owner takes the new record in. */
  lemma OldHash(snap: Snapshot, cur: Snapshot, owners: Owners, i: nat, keys: set<string>, h: string)
    requires i < |snap| && SnapshotLoaded(snap) && SameKeys(snap, cur) && Merging(snap, cur, owners, i, keys)
    requires h in keys && h in snap[i] && h in owners
    ensures owners[h] < i && h in cur[owners[h]] && h in cur[i] && cur[i][h] == snap[i][h]
    ensures "sources" in cur[owners[h]][h] ==> cur[owners[h]][h]["sources"].Tags?
    ensures var next := Written(cur, owners[h], h, Merge(cur[owners[h]][h], cur[i][h]));
            SameKeys(snap, next) && Merging(snap, next, owners, i, keys - {h})
  {
    OldHashFacts(snap, cur, owners, i, keys, h);
    var o, value := owners[h], Merge(cur[owners[h]][h], cur[i][h]);
    var next := Written(cur, o, h, value);
    WriteKeepsOthers(snap, cur, owners, h, value);
    forall k ensures MergedUpTo(snap, next, owners, k, Considered(snap, i, keys - {h}, k)) {
      assert MergedUpTo(snap, cur, owners, k, Considered(snap, i, keys, k));
      if k != h {
        OtherHash(snap, cur, owners, o, h, value, k, Considered(snap, i, keys, k));
      } else {
        FoldStep(snap, i, h);
        assert next[o][h] == value;
      }
    }
  }

  lemma SourceDone(snap: Snapshot, cur: Snapshot, owners: Owners, i: nat)
    requires i < |snap| && SnapshotLoaded(snap) && SameKeys(snap, cur) && Merging(snap, cur, owners, i, {})
    ensures AllMerged(snap, cur, owners, i + 1)
  {
    var n := i + 1;
    forall h ensures MergedUpTo(snap, cur, owners, h, n) {
      assert MergedUpTo(snap, cur, owners, h, Considered(snap, i, {}, h));
      if h !in snap[i] {
        assert Infos(snap, n, h) == Infos(snap, i, h);
      }
    }
  }

  /** What a merged record holds, in terms of the hash's records in source order: the first value of every field, and
      the distinct source tags exactly when the hash was found twice or more. */
  lemma MergedRecord(snap: Snapshot, cur: Snapshot, owners: Owners, hash: string)
    requires SnapshotLoaded(snap) && SameKeys(snap, cur) && MergedUpTo(snap, cur, owners, hash, |snap|) && hash in owners
    ensures var infos := Infos(snap, |snap|, hash);
            var record := cur[owners[hash]][hash];
            && (forall key, i: nat :: key != "sources" && FirstValue(infos, key, i) ==>
                  key in record && record[key] == infos[i][key])
            && ("sources" in record <==> |infos| >= 2)
            && (|infos| >= 2 ==> record["sources"] == Tags(DistinctTags(infos)) && Distinct(DistinctTags(infos)))
  {
    var infos := Infos(snap, |snap|, hash);
    FoldedSources(infos);
    DistinctTagsAreDistinct(infos);
    forall key, i: nat | key != "sources" && FirstValue(infos, key, i)
      ensures key in Folded(infos) && Folded(infos)[key] == infos[i][key]
    {
      FirstValueWins(infos, key, i);
    }
  }

  // ----- The merge in the heap -----

  /** `merged` holds, for each hash, the very object of its owner. */
  ghost predicate Holds(sources: seq<Source>, merged: Source, owners: Owners) {
    merged.Keys == owners.Keys &&
    forall h :: h in merged ==> owners[h] < |sources| && h in sources[owners[h]] && merged[h] == sources[owners[h]][h]
  }

  /** Writing one record changes one entry of the contents. */
  method Update(sources: seq<Source>, ghost o: nat, existing: Record, i: nat, h: string)
    requires Separate(sources) && o < i < |sources| && h in sources[o] && h in sources[i] && existing == sources[o][h]
    requires Loaded(sources[i][h].fields)
    requires "sources" in existing.fields ==> existing.fields["sources"].Tags?
    modifies existing
    ensures Contents(sources) == Written(old(Contents(sources)), o, h, Merge(old(Contents(sources))[o][h], old(Contents(sources))[i][h]))
  {
    ghost var before := Contents(sources);
    MergeInto(existing, sources[i][h]);
    ghost var after := Written(before, o, h, Merge(before[o][h], before[i][h]));
    forall j, k | 0 <= j < |sources| && k in sources[j] ensures k in after[j] && sources[j][k].fields == after[j][k] {
      if j != o || k != h {
        assert sources[j][k] != sources[o][h];
      }
    }
    ContentsAre(sources, after);
  }

  lemma ContentsAre(sources: seq<Source>, snap: Snapshot)
    requires |snap| == |sources| && forall i :: 0 <= i < |sources| ==> snap[i].Keys == sources[i].Keys
    requires forall i, h :: 0 <= i < |sources| && h in sources[i] ==> sources[i][h].fields == snap[i][h]
    ensures Contents(sources) == snap
  {
    forall i | 0 <= i < |sources| ensures Contents(sources)[i] == snap[i] {
    }
  }

  /** `merge_hashes`: `merged` has exactly the hashes of the sources; each is the first source's own record object,
      now holding the fold of the hash's records as they were; every other record is unchanged. */
  method MergeHashes(sources: seq<Source>) returns (merged: Source, ghost owners: Owners)
    requires Separate(sources) && SnapshotLoaded(Contents(sources))
    modifies Objects(sources)
    ensures forall h :: h in merged <==> exists i :: 0 <= i < |sources| && h in sources[i]
    ensures Holds(sources, merged, owners)
    ensures SameKeys(old(Contents(sources)), Contents(sources))
    ensures AllMerged(old(Contents(sources)), Contents(sources), owners, |sources|)
    ensures OthersUntouched(old(Contents(sources)), Contents(sources), owners)
  {
    ghost var snap := Contents(sources);
    merged, owners := map[], map[];
    for i := 0 to |sources|
      invariant Holds(sources, merged, owners) && SameKeys(snap, Contents(sources))
      invariant OthersUntouched(snap, Contents(sources), owners)
      invariant AllMerged(snap, Contents(sources), owners, i)
    {
      merged, owners := MergeSource(sources, snap, merged, owners, i);
    }
    forall h ensures h in merged <==> exists i :: 0 <= i < |sources| && h in sources[i] {
      assert MergedUpTo(snap, Contents(sources), owners, h, |sources|);
      InfosEmpty(snap, |sources|, h);
    }
  }

  /** The inner loop, over the entries of one source in any order. */
  method MergeSource(sources: seq<Source>, ghost snap: Snapshot, merged: Source, ghost owners: Owners, i: nat)
    returns (after: Source, ghost ownersAfter: Owners)
    requires Separate(sources) && i < |sources| == |snap| && SnapshotLoaded(snap) && SameKeys(snap, Contents(sources))
    requires Holds(sources, merged, owners) && OthersUntouched(snap, Contents(sources), owners)
    requires AllMerged(snap, Contents(sources), owners, i)
    modifies Objects(sources)
    ensures Holds(sources, after, ownersAfter) && SameKeys(snap, Contents(sources))
    ensures OthersUntouched(snap, Contents(sources), ownersAfter)
    ensures AllMerged(snap, Contents(sources), ownersAfter, i + 1)
  {
    after, ownersAfter := merged, owners;
    var keys := sources[i].Keys;
    assert forall h :: Considered(snap, i, keys, h) == i;
    while keys != {}
      invariant keys <= sources[i].Keys && Holds(sources, after, ownersAfter) && SameKeys(snap, Contents(sources))
      invariant Merging(snap, Contents(sources), ownersAfter, i, keys)
      decreases keys
    {
      var h :| h in keys;
      if h !in after {
        NewHash(snap, Contents(sources), ownersAfter, i, keys, h);
        after, ownersAfter := after[h := sources[i][h]], ownersAfter[h := i];
      } else {
        OldHash(snap, Contents(sources), ownersAfter, i, keys, h);
        assert sources[ownersAfter[h]][h] in Objects(sources);
        Update(sources, ownersAfter[h], after[h], i, h);
      }
      keys := keys - {h};
    }
    SourceDone(snap, Contents(sources), ownersAfter, i);
  }
}
