/**
 Processing of the YARA repositories: files in collection order, rules kept once by name, and copies
 placed in category directories without overwriting. Compilation and categorisation are foreign and
 given with each file.
 */
module RuleDedup {
  import opened Text

  datatype Category = Malware | Exploit | Packer | Webshell | Document | Generic

  /** `inSignatureBase` and `inYaraRules` say whether the path contains the repository's name. */
  datatype File = File(stem: string, suffix: string, inSignatureBase: bool, inYaraRules: bool,
                       compiles: bool, rules: seq<string>, category: Category)

  /** The names present in each category directory. */
  type Directory = map<Category, set<string>>

  function NamesIn(dir: Directory, c: Category): set<string> {
    if c in dir then dir[c] else {}
  }

  datatype Place = Place(category: Category, name: string)

  datatype Report = Report(
    compiledOk: nat, errors: nat, deduplicated: nat, totalRules: nat, preferred: nat,
    byCategory: map<Category, nat>, seen: map<string, nat>, placed: map<nat, Place>)

  // ----- Free names -----

  function Numbered(stem: string, k: nat, suffix: string): string {
    stem + "_" + Show(k) + suffix
  }

  lemma NumberedInjective(stem: string, j: nat, k: nat, suffix: string)
    requires Numbered(stem, j, suffix) == Numbered(stem, k, suffix)
    ensures j == k
  {
    var a, b := Numbered(stem, j, suffix), Numbered(stem, k, suffix);
    var p := |stem| + 1;
    assert a[p..|a| - |suffix|] == Show(j);
    assert b[p..|b| - |suffix|] == Show(k);
    ShowInjective(j, k);
  }

  lemma NumberedExample()
    ensures Numbered("apt", 12, ".yar") == "apt_12.yar"
  {
    assert Show(12) == Show(1) + [Digit(2)] == "12";
  }

  /** Numbers tried without success never outnumber the names taken. */
  lemma {:induction false} TriedBound(taken: set<string>, stem: string, suffix: string, counter: nat)
    requires counter >= 1 && forall j: nat :: 1 <= j < counter ==> Numbered(stem, j, suffix) in taken
    ensures counter - 1 <= |taken|
    decreases counter
  {
    if counter > 1 {
      var last := Numbered(stem, counter - 1, suffix);
      forall j: nat | 1 <= j < counter - 1 ensures Numbered(stem, j, suffix) in taken - {last} {
        if Numbered(stem, j, suffix) == last {
          NumberedInjective(stem, j, counter - 1, suffix);
        }
      }
      TriedBound(taken - {last}, stem, suffix, counter - 1);
    }
  }

  ghost predicate IsFirstFree(taken: set<string>, stem: string, suffix: string, k: nat) {
    && k >= 1 && Numbered(stem, k, suffix) !in taken
    && forall j: nat :: 1 <= j < k ==> Numbered(stem, j, suffix) in taken
  }

  /** The collision loop: the file's own name if it is free, the first free numbered name otherwise. */
  method FreeName(taken: set<string>, stem: string, suffix: string) returns (name: string)
    ensures name !in taken
    ensures stem + suffix !in taken ==> name == stem + suffix
    ensures stem + suffix in taken ==>
              exists k: nat :: IsFirstFree(taken, stem, suffix, k) && name == Numbered(stem, k, suffix)
  {
    name := stem + suffix;
    if name in taken {
      var counter := 1;
      name := Numbered(stem, counter, suffix);
      while name in taken
        invariant counter >= 1 && name == Numbered(stem, counter, suffix)
        invariant forall j: nat :: 1 <= j < counter ==> Numbered(stem, j, suffix) in taken
        decreases |taken| + 1 - counter
      {
        TriedBound(taken, stem, suffix, counter + 1);
        counter := counter + 1;
        name := Numbered(stem, counter, suffix);
      }
      assert IsFirstFree(taken, stem, suffix, counter);
    }
  }

  // ----- Rules -----

  predicate Declares(f: File, rule: string) {
    f.compiles && rule in f.rules
  }

  ghost predicate Known(files: seq<File>, n: nat, rule: string)
    requires n <= |files|
  {
    exists i :: 0 <= i < n && Declares(files[i], rule)
  }

  /** File `i` is the first to declare the rule. */
  ghost predicate IsFirst(files: seq<File>, rule: string, i: nat) {
    i < |files| && Declares(files[i], rule) && forall j :: 0 <= j < i ==> !Declares(files[j], rule)
  }

  /** No file from signature-base comes after, or is, a file from yara-rules. */
  ghost predicate OrderedOrigins(files: seq<File>) {
    forall i, j :: 0 <= i <= j < |files| ==> !(files[i].inYaraRules && files[j].inSignatureBase)
  }

  /** Collecting one repository after the other gives that order, when the paths tell the two apart. */
  lemma CollectedInOrder(signatureBase: seq<File>, yaraRules: seq<File>)
    requires forall f :: f in signatureBase ==> !f.inYaraRules
    requires forall f :: f in yaraRules ==> !f.inSignatureBase
    ensures OrderedOrigins(signatureBase + yaraRules)
  {
    var files := signatureBase + yaraRules;
    forall i, j | 0 <= i <= j < |files| ensures !(files[i].inYaraRules && files[j].inSignatureBase) {
      if i < |signatureBase| {
        assert files[i] in signatureBase;
      } else {
        assert files[j] in yaraRules;
      }
    }
  }

  /** The names declared in the files that compile, counted with repetition. */
  function DeclaredNames(files: seq<File>, n: nat): nat
    requires n <= |files|
  {
    if n == 0 then 0 else DeclaredNames(files, n - 1) + if files[n - 1].compiles then |files[n - 1].rules| else 0
  }

  ghost predicate SeenIsKnown(files: seq<File>, n: nat, seen: map<string, nat>)
    requires n <= |files|
  {
    && (forall rule :: rule in seen <==> Known(files, n, rule))
    && (forall rule :: rule in seen ==> seen[rule] < n)
  }

  ghost predicate SeenIsFirst(files: seq<File>, seen: map<string, nat>) {
    forall rule :: rule in seen ==> IsFirst(files, rule, seen[rule])
  }

  /** The rules credited to files of a category. */
  ghost function Credited(files: seq<File>, seen: map<string, nat>, c: Category): set<string> {
    set rule | rule in seen && seen[rule] < |files| && files[seen[rule]].category == c
  }

  lemma CreditNew(files: seq<File>, seen: map<string, nat>, rule: string, i: nat, c: Category)
    requires rule !in seen && i < |files|
    ensures |Credited(files, seen[rule := i], c)| == |Credited(files, seen, c)| + if files[i].category == c then 1 else 0
  {
    var before := Credited(files, seen, c);
    assert Credited(files, seen[rule := i], c) == if files[i].category == c then before + {rule} else before;
  }

  /** What the rule loop accumulates over one file. */
  datatype Tally = Tally(seen: map<string, nat>, added: nat, repeated: nat, preferred: nat)

  ghost predicate Progress(i: nat, start: map<string, nat>, rules: seq<string>, t: Tally) {
    && (forall rule :: rule in t.seen <==> rule in start || rule in rules)
    && (forall rule :: rule in t.seen ==> t.seen[rule] <= i)
    && t.added + t.repeated == |rules|
    && |t.seen| == |start| + t.added
    && (t.added > 0 <==> exists rule :: rule in rules && rule !in start)
  }

  /** Rules keep the file they were seen in first, and each added rule is credited to this file's category. */
  ghost predicate FirstCome(files: seq<File>, i: nat, start: map<string, nat>, t: Tally)
    requires i < |files|
  {
    && t.preferred == 0
    && (forall rule :: rule in t.seen ==> t.seen[rule] == if rule in start then start[rule] else i)
    && (forall c: Category :: CreditCount(files, t.seen, c) == CreditCount(files, start, c) + if files[i].category == c then t.added else 0)
  }

  ghost function CreditCount(files: seq<File>, seen: map<string, nat>, c: Category): nat {
    |Credited(files, seen, c)|
  }

  function AddNew(t: Tally, rule: string, i: nat): Tally {
    t.(seen := t.seen[rule := i], added := t.added + 1)
  }

  lemma AddNewProgress(i: nat, start: map<string, nat>, rules: seq<string>, t: Tally, rule: string)
    requires Progress(i, start, rules, t) && rule !in t.seen
    ensures Progress(i, start, rules + [rule], AddNew(t, rule, i))
  {
    assert rule in rules + [rule] && rule !in start;
  }

  lemma AddNewFirstCome(files: seq<File>, i: nat, start: map<string, nat>, t: Tally, rule: string)
    requires i < |files| && FirstCome(files, i, start, t) && rule !in t.seen && rule !in start
    ensures FirstCome(files, i, start, AddNew(t, rule, i))
  {
    forall c: Category
      ensures CreditCount(files, t.seen[rule := i], c) == CreditCount(files, start, c) + if files[i].category == c then t.added + 1 else 0
    {
      CreditNew(files, t.seen, rule, i, c);
    }
  }

  lemma RepeatProgress(i: nat, start: map<string, nat>, rules: seq<string>, t: Tally, rule: string, preferred: nat)
    requires Progress(i, start, rules, t) && rule in t.seen
    ensures Progress(i, start, rules + [rule], t.(repeated := t.repeated + 1))
    ensures Progress(i, start, rules + [rule], t.(repeated := t.repeated + 1, seen := t.seen[rule := i], preferred := preferred))
  {
    assert t.seen[rule := i].Keys == t.seen.Keys;
    assert |t.seen[rule := i]| == |t.seen[rule := i].Keys| == |t.seen.Keys| == |t.seen|;
    if rule !in start {
      assert rule in rules;
    }
    forall r | r in rules ensures r in rules + [rule] {
    }
  }

  /** What is kept from one rule name to the next. */
  ghost predicate RulesSeen(files: seq<File>, i: nat, start: map<string, nat>, rules: seq<string>, t: Tally)
    requires i < |files|
  {
    Progress(i, start, rules, t) && (OrderedOrigins(files) ==> FirstCome(files, i, start, t))
  }

  /** One rule name. */
  method AddRule(files: seq<File>, i: nat, ghost start: map<string, nat>, ghost rules: seq<string>, t: Tally, rule: string)
    returns (u: Tally)
    requires i < |files| && RulesSeen(files, i, start, rules, t)
    ensures RulesSeen(files, i, start, rules + [rule], u)
  {
    if rule in t.seen {
      RepeatProgress(i, start, rules, t, rule, t.preferred + 1);
      if files[i].inSignatureBase && files[t.seen[rule]].inYaraRules {
        u := t.(repeated := t.repeated + 1, seen := t.seen[rule := i], preferred := t.preferred + 1);
      } else {
        u := t.(repeated := t.repeated + 1);
      }
    } else {
      AddNewProgress(i, start, rules, t, rule);
      if OrderedOrigins(files) {
        AddNewFirstCome(files, i, start, t, rule);
      }
      u := AddNew(t, rule, i);
    }
  }

  lemma NoRulesYet(files: seq<File>, i: nat, start: map<string, nat>)
    requires i < |files| && SeenIsKnown(files, i, start)
    ensures RulesSeen(files, i, start, [], Tally(start, 0, 0, 0))
  {
  }

  /** The rule loop of one file that compiles. */
  method AddRules(files: seq<File>, i: nat, start: map<string, nat>) returns (t: Tally)
    requires i < |files| && SeenIsKnown(files, i, start) && files[i].compiles
    ensures Progress(i, start, files[i].rules, t)
    ensures OrderedOrigins(files) ==> FirstCome(files, i, start, t)
  {
    var rules := files[i].rules;
    NoRulesYet(files, i, start);
    t := Tally(start, 0, 0, 0);
    for k := 0 to |rules|
      invariant RulesSeen(files, i, start, rules[..k], t)
    {
      assert rules[..k + 1] == rules[..k] + [rules[k]];
      t := AddRule(files, i, start, rules[..k], t, rules[k]);
    }
    assert rules[..|rules|] == rules;
  }

  // ----- The whole run -----

  function CountOf(m: map<Category, nat>, c: Category): nat {
    if c in m then m[c] else 0
  }

  function CategorySum(m: map<Category, nat>): nat {
    CountOf(m, Malware) + CountOf(m, Exploit) + CountOf(m, Packer) + CountOf(m, Webshell) + CountOf(m, Document) + CountOf(m, Generic)
  }

  function Credit(m: map<Category, nat>, c: Category, k: nat): map<Category, nat> {
    m[c := CountOf(m, c) + k]
  }

  lemma CreditCounts(m: map<Category, nat>, c: Category, k: nat, d: Category)
    ensures CountOf(Credit(m, c, k), d) == CountOf(m, d) + if d == c then k else 0
  {
  }

  lemma CreditAdds(m: map<Category, nat>, c: Category, k: nat)
    ensures CategorySum(Credit(m, c, k)) == CategorySum(m) + k
    ensures forall d: Category :: CountOf(Credit(m, c, k), d) == CountOf(m, d) + if d == c then k else 0
  {
    forall d: Category ensures CountOf(Credit(m, c, k), d) == CountOf(m, d) + if d == c then k else 0 {
      CreditCounts(m, c, k, d);
    }
  }

  /** The files that compile. */
  ghost function Compiled(files: seq<File>, n: nat): set<nat>
    requires n <= |files|
  {
    set i: nat | i < n && files[i].compiles
  }

  lemma CompiledNext(files: seq<File>, i: nat)
    requires i < |files|
    ensures |Compiled(files, i + 1)| == |Compiled(files, i)| + if files[i].compiles then 1 else 0
  {
    assert Compiled(files, i + 1) == if files[i].compiles then Compiled(files, i) + {i} else Compiled(files, i);
  }

  /** Every declared name is either a distinct rule or a repetition, and the categories share out the distinct rules. */
  ghost predicate Accounted(files: seq<File>, n: nat, r: Report)
    requires n <= |files|
  {
    && r.compiledOk == |Compiled(files, n)| && r.compiledOk + r.errors == n
    && r.deduplicated + r.totalRules == DeclaredNames(files, n)
    && r.totalRules == |r.seen| == CategorySum(r.byCategory)
    && SeenIsKnown(files, n, r.seen)
  }

  /** Every rule is credited to the first file declaring it, and to the category of that file. */
  ghost predicate CreditedToFirst(files: seq<File>, r: Report) {
    && r.preferred == 0
    && SeenIsFirst(files, r.seen)
    && forall c: Category :: CountOf(r.byCategory, c) == CreditCount(files, r.seen, c)
  }

  /** Exactly the files that were first with some rule were copied, each to a place of its own that was free. */
  ghost predicate CopiedOnce(files: seq<File>, n: nat, before: Directory, after: Directory, placed: map<nat, Place>)
    requires n <= |files|
  {
    && (forall i :: i in placed ==> i < n && placed[i].category == files[i].category)
    && (forall i :: 0 <= i < n ==> (i in placed <==> FirstWithSome(files, i)))
    && (forall i :: i in placed ==> placed[i].name !in NamesIn(before, placed[i].category))
    && PlacesApart(placed)
    && Holds(before, after, placed.Values)
  }

  ghost predicate PlacesApart(placed: map<nat, Place>) {
    forall i, j :: i in placed && j in placed && i != j ==> placed[i] != placed[j]
  }

  lemma OnePlaceMore(placed: map<nat, Place>, i: nat, place: Place)
    requires PlacesApart(placed) && i !in placed && place !in placed.Values
    ensures PlacesApart(placed[i := place])
  {
    forall j | j in placed ensures placed[j] in placed.Values && placed[j] != place {
    }
  }

  /** The directory holds what it held before, and the copies. */
  ghost predicate Holds(before: Directory, after: Directory, copies: set<Place>) {
    forall c: Category, name: string :: name in NamesIn(after, c) <==> name in NamesIn(before, c) || Place(c, name) in copies
  }

  lemma HoldsOneMore(before: Directory, dir: Directory, copies: set<Place>, place: Place)
    requires Holds(before, dir, copies)
    ensures Holds(before, dir[place.category := NamesIn(dir, place.category) + {place.name}], copies + {place})
  {
  }

  ghost predicate FirstWithSome(files: seq<File>, i: nat) {
    exists rule :: IsFirst(files, rule, i)
  }

  lemma FirstMeansNew(files: seq<File>, i: nat, seen: map<string, nat>)
    requires i < |files| && SeenIsKnown(files, i, seen)
    ensures FirstWithSome(files, i) <==> files[i].compiles && exists rule :: rule in files[i].rules && rule !in seen
  {
    if FirstWithSome(files, i) {
      var rule :| IsFirst(files, rule, i);
      assert rule in files[i].rules && rule !in seen;
    }
    if files[i].compiles && exists rule :: rule in files[i].rules && rule !in seen {
      var rule :| rule in files[i].rules && rule !in seen;
      assert !Known(files, i, rule);
      assert IsFirst(files, rule, i);
    }
  }

  lemma KnownGrows(files: seq<File>, i: nat, seen: map<string, nat>, after: map<string, nat>)
    requires i < |files| && SeenIsKnown(files, i, seen)
    requires forall rule :: rule in after <==> rule in seen || Declares(files[i], rule)
    requires forall rule :: rule in after ==> after[rule] <= i
    ensures SeenIsKnown(files, i + 1, after)
  {
    forall rule ensures rule in after <==> Known(files, i + 1, rule) {
      if Known(files, i + 1, rule) {
        var j :| 0 <= j < i + 1 && Declares(files[j], rule);
        assert j < i ==> Known(files, i, rule);
      }
      if rule in seen {
        assert Known(files, i, rule);
      }
    }
  }

  lemma FirstGrows(files: seq<File>, i: nat, seen: map<string, nat>, after: map<string, nat>)
    requires i < |files| && SeenIsKnown(files, i, seen) && SeenIsFirst(files, seen)
    requires forall rule :: rule in after <==> rule in seen || Declares(files[i], rule)
    requires forall rule :: rule in after ==> after[rule] == if rule in seen then seen[rule] else i
    ensures SeenIsFirst(files, after)
  {
    forall rule | rule in after ensures IsFirst(files, rule, after[rule]) {
      if rule !in seen {
        assert !Known(files, i, rule);
      }
    }
  }

  lemma PlaceKeeps(files: seq<File>, i: nat, before: Directory, dir: Directory, placed: map<nat, Place>, place: Place)
    requires i < |files| && CopiedOnce(files, i, before, dir, placed) && FirstWithSome(files, i)
    requires place.category == files[i].category && place.name !in NamesIn(dir, place.category)
    ensures CopiedOnce(files, i + 1, before, dir[place.category := NamesIn(dir, place.category) + {place.name}], placed[i := place])
  {
    assert i !in placed;
    assert place !in placed.Values;
    OnePlaceMore(placed, i, place);
    PlacedValues(placed, i, place);
    HoldsOneMore(before, dir, placed.Values, place);
  }

  /** `shutil.copy2` to a free name of the file's category. */
  method Copy(files: seq<File>, i: nat, ghost before: Directory, dir: Directory, placed: map<nat, Place>)
    returns (dirAfter: Directory, placedAfter: map<nat, Place>)
    requires i < |files| && CopiedOnce(files, i, before, dir, placed) && FirstWithSome(files, i)
    ensures CopiedOnce(files, i + 1, before, dirAfter, placedAfter)
  {
    var f := files[i];
    var taken := NamesIn(dir, f.category);
    var name := FreeName(taken, f.stem, f.suffix);
    PlaceKeeps(files, i, before, dir, placed, Place(f.category, name));
    dirAfter := dir[f.category := taken + {name}];
    placedAfter := placed[i := Place(f.category, name)];
  }

  lemma PlacedValues(placed: map<nat, Place>, i: nat, p: Place)
    requires i !in placed
    ensures placed[i := p].Values == placed.Values + {p}
  {
    var after := placed[i := p];
    assert after[i] == p;
    forall x | x in placed.Values ensures x in after.Values {
      var j :| j in placed && placed[j] == x;
      assert after[j] == x;
    }
  }

  lemma NotCopied(files: seq<File>, i: nat, before: Directory, dir: Directory, placed: map<nat, Place>)
    requires i < |files| && CopiedOnce(files, i, before, dir, placed) && !FirstWithSome(files, i)
    ensures CopiedOnce(files, i + 1, before, dir, placed)
  {
  }

  /** The report after one more file that compiles. */
  function Absorb(r: Report, t: Tally, c: Category, placed: map<nat, Place>): Report {
    r.(compiledOk := r.compiledOk + 1, deduplicated := r.deduplicated + t.repeated,
       totalRules := r.totalRules + t.added, preferred := r.preferred + t.preferred,
       byCategory := if t.added > 0 then Credit(r.byCategory, c, t.added) else r.byCategory,
       seen := t.seen, placed := placed)
  }

  lemma AbsorbAccounts(files: seq<File>, i: nat, r: Report, t: Tally, placed: map<nat, Place>)
    requires i < |files| && files[i].compiles && Accounted(files, i, r) && Progress(i, r.seen, files[i].rules, t)
    ensures Accounted(files, i + 1, Absorb(r, t, files[i].category, placed))
  {
    CompiledNext(files, i);
    KnownGrows(files, i, r.seen, t.seen);
    CreditAdds(r.byCategory, files[i].category, t.added);
  }

  lemma AbsorbCredits(files: seq<File>, i: nat, r: Report, t: Tally, placed: map<nat, Place>)
    requires i < |files| && files[i].compiles && SeenIsKnown(files, i, r.seen) && Progress(i, r.seen, files[i].rules, t)
    requires CreditedToFirst(files, r) && FirstCome(files, i, r.seen, t)
    ensures CreditedToFirst(files, Absorb(r, t, files[i].category, placed))
  {
    FirstGrows(files, i, r.seen, t.seen);
    CreditAdds(r.byCategory, files[i].category, t.added);
  }

  ghost predicate Sound(files: seq<File>, n: nat, before: Directory, dir: Directory, r: Report)
    requires n <= |files|
  {
    && Accounted(files, n, r)
    && CopiedOnce(files, n, before, dir, r.placed)
    && (OrderedOrigins(files) ==> CreditedToFirst(files, r))
  }

  const EMPTY := Report(0, 0, 0, 0, 0, map[], map[], map[])

  lemma EmptySound(files: seq<File>, before: Directory)
    ensures Sound(files, 0, before, before, EMPTY)
  {
    assert Compiled(files, 0) == {};
    assert forall c: Category :: Credited(files, map[], c) == {};
  }

  lemma FailureSound(files: seq<File>, i: nat, before: Directory, dir: Directory, r: Report)
    requires i < |files| && Sound(files, i, before, dir, r) && !files[i].compiles
    ensures Sound(files, i + 1, before, dir, r.(errors := r.errors + 1))
  {
    CompiledNext(files, i);
    FirstMeansNew(files, i, r.seen);
    KnownGrows(files, i, r.seen, r.seen);
    NotCopied(files, i, before, dir, r.placed);
  }

  lemma KnownWasCopied(files: seq<File>, before: Directory, dir: Directory, r: Report)
    requires Sound(files, |files|, before, dir, r) && OrderedOrigins(files)
    ensures forall rule :: rule in r.seen ==> r.seen[rule] in r.placed
  {
    forall rule | rule in r.seen ensures r.seen[rule] in r.placed {
      assert IsFirst(files, rule, r.seen[rule]);
      assert FirstWithSome(files, r.seen[rule]);
    }
  }

  /** One file that compiles. */
  method ProcessCompiled(files: seq<File>, i: nat, ghost before: Directory, dir: Directory, r: Report)
    returns (after: Report, dirAfter: Directory)
    requires i < |files| && Sound(files, i, before, dir, r) && files[i].compiles
    ensures Sound(files, i + 1, before, dirAfter, after)
  {
    FirstMeansNew(files, i, r.seen);
    var t := AddRules(files, i, r.seen);
    var placed := r.placed;
    dirAfter := dir;
    if t.added > 0 {
      dirAfter, placed := Copy(files, i, before, dir, r.placed);
    } else {
      NotCopied(files, i, before, dir, r.placed);
    }
    AbsorbAccounts(files, i, r, t, placed);
    if OrderedOrigins(files) {
      AbsorbCredits(files, i, r, t, placed);
    }
    after := Absorb(r, t, files[i].category, placed);
  }

  /** One file; a file that does not compile only adds to the errors. */
  method ProcessFile(files: seq<File>, i: nat, ghost before: Directory, dir: Directory, r: Report)
    returns (after: Report, dirAfter: Directory)
    requires i < |files| && Sound(files, i, before, dir, r)
    ensures Sound(files, i + 1, before, dirAfter, after)
  {
    if files[i].compiles {
      after, dirAfter := ProcessCompiled(files, i, before, dir, r);
    } else {
      FailureSound(files, i, before, dir, r);
      after, dirAfter := r.(errors := r.errors + 1), dir;
    }
  }

  /** `process_yara_repos`, from the collected file list on. */
  method ProcessRepos(files: seq<File>, before: Directory) returns (r: Report, dir: Directory)
    ensures Accounted(files, |files|, r)
    ensures CopiedOnce(files, |files|, before, dir, r.placed)
    ensures OrderedOrigins(files) ==> CreditedToFirst(files, r)
    ensures OrderedOrigins(files) ==> forall rule :: rule in r.seen ==> r.seen[rule] in r.placed
  {
    r, dir := EMPTY, before;
    EmptySound(files, before);
    for i := 0 to |files|
      invariant Sound(files, i, before, dir, r)
    {
      r, dir := ProcessFile(files, i, before, dir, r);
    }
    if OrderedOrigins(files) {
      KnownWasCopied(files, before, dir, r);
    }
  }
}
