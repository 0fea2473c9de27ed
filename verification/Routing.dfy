/** Which flows an instance takes: the source-type normalisation and the edge / central role filter. */
module Routing {
  import opened Text

  /** A `source_type` as it arrives: missing, a number from Protobuf, or text from JSON or the configuration. */
  datatype Raw = Null | Number(z: int) | Word(s: string)

  const SOURCE_TYPES: map<int, string> := map[
    0 := "unknown", 1 := "k8s_cilium", 2 := "bare_metal", 3 := "gateway_sensor", 4 := "gcp_vpc",
    5 := "aws_vpc", 6 := "azure_nsg", 7 := "pcap", 8 := "zeek", 9 := "suricata"]

  function Lookup(code: int, fallback: string): string {
    if code in SOURCE_TYPES then SOURCE_TYPES[code] else fallback
  }

  function NormalizeSourceType(raw: Raw): string {
    match raw
    case Null => ""
    case Number(z) => Lookup(z, ShowInt(z))
    case Word(s) =>
      var val := Clean(s);
      if IsDigits(val) then Lookup(Read(val), val) else val
  }

  lemma MappedNamesAreClean(code: int)
    requires code in SOURCE_TYPES
    ensures IsClean(SOURCE_TYPES[code]) && SOURCE_TYPES[code] != [] && !IsDigits(SOURCE_TYPES[code])
  {
    assert !IsDigit(SOURCE_TYPES[code][0]);
  }

  /** A normalised source type is left alone. */
  lemma NormalizeIdempotent(raw: Raw)
    ensures NormalizeSourceType(Word(NormalizeSourceType(raw))) == NormalizeSourceType(raw)
  {
    var val := NormalizeSourceType(raw);
    match raw
    case Null =>
      assert Strip("") == "";
    case Number(z) =>
      if z in SOURCE_TYPES {
        MappedNamesAreClean(z);
      } else {
        ShowIsClean(z);
        if z >= 0 {
          ReadShow(z);
        }
      }
      CleanFixed(val);
    case Word(s) =>
      CleanIsClean(s);
      if IsDigits(Clean(s)) && Read(Clean(s)) in SOURCE_TYPES {
        MappedNamesAreClean(Read(Clean(s)));
      }
      CleanFixed(val);
  }

  /** The numeric, the printed numeric and the named form of a mapped source type agree. */
  lemma FormsAgree(code: int)
    requires code in SOURCE_TYPES
    ensures NormalizeSourceType(Number(code)) == SOURCE_TYPES[code]
    ensures NormalizeSourceType(Word(ShowInt(code))) == SOURCE_TYPES[code]
    ensures NormalizeSourceType(Word(SOURCE_TYPES[code])) == SOURCE_TYPES[code]
  {
    NormalizeIdempotent(Number(code));
    assert code >= 0;
    ShowIsClean(code);
    CleanFixed(ShowInt(code));
    ReadShow(code);
  }

  datatype Flow = Flow(sourceId: string, sourceType: Raw)

  predicate Matches(flow: Flow, edgeIds: seq<string>, edgeTypes: seq<string>) {
    var types := set t | t in edgeTypes && Strip(t) != [] :: NormalizeSourceType(Word(t));
    || (edgeIds != [] && Strip(flow.sourceId) in edgeIds)
    || (types != {} && NormalizeSourceType(flow.sourceType) in types)
  }

  predicate ShouldProcess(flow: Flow, role: string, edgeIds: seq<string>, edgeTypes: seq<string>) {
    var norm := Clean(if role == [] then "central" else role);
    if norm == "edge" then (edgeIds == [] && edgeTypes == []) || Matches(flow, edgeIds, edgeTypes)
    else if norm == "central" then (edgeIds == [] && edgeTypes == []) || !Matches(flow, edgeIds, edgeTypes)
    else true
  }

  function Taken(log: seq<Flow>, role: string, edgeIds: seq<string>, edgeTypes: seq<string>): seq<Flow> {
    if log == [] then []
    else
      var rest := Taken(log[1..], role, edgeIds, edgeTypes);
      if ShouldProcess(log[0], role, edgeIds, edgeTypes) then [log[0]] + rest else rest
  }

  /** An instance takes every occurrence of the flows meant for it, and no other flow. */
  lemma {:induction false} TakenExactly(log: seq<Flow>, role: string, edgeIds: seq<string>, edgeTypes: seq<string>, flow: Flow)
    ensures multiset(Taken(log, role, edgeIds, edgeTypes))[flow]
            == if ShouldProcess(flow, role, edgeIds, edgeTypes) then multiset(log)[flow] else 0
  {
    if log != [] {
      TakenExactly(log[1..], role, edgeIds, edgeTypes, flow);
      assert log == [log[0]] + log[1..];
    }
  }

  predicate IsEdge(role: string) { role != [] && Clean(role) == "edge" }
  predicate IsCentral(role: string) { role == [] || Clean(role) == "central" }

  /** One edge and one central instance divide every flow log between them, provided some filter is set. */
  lemma {:induction false} RolesPartition(log: seq<Flow>, edge: string, central: string, edgeIds: seq<string>, edgeTypes: seq<string>)
    requires IsEdge(edge) && IsCentral(central) && (edgeIds != [] || edgeTypes != [])
    ensures multiset(Taken(log, edge, edgeIds, edgeTypes)) + multiset(Taken(log, central, edgeIds, edgeTypes)) == multiset(log)
  {
    CentralIsClean();
    if log != [] {
      RolesPartition(log[1..], edge, central, edgeIds, edgeTypes);
      assert log == [log[0]] + log[1..];
    }
  }

  lemma CentralIsClean()
    ensures Clean("central") == "central"
  {
    CleanFixed("central");
  }

  /** A flow passes exactly one of the two filters if and only if the filter lists are not both empty. */
  lemma ExactlyOneRole(flow: Flow, edge: string, central: string, edgeIds: seq<string>, edgeTypes: seq<string>)
    requires IsEdge(edge) && IsCentral(central)
    ensures ShouldProcess(flow, edge, edgeIds, edgeTypes) != ShouldProcess(flow, central, edgeIds, edgeTypes)
            <==> edgeIds != [] || edgeTypes != []
  {
    CentralIsClean();
  }

  /** Routing cannot tell the numeric form of a mapped source type from its name. */
  lemma RoutingIgnoresForm(id: string, code: int, role: string, edgeIds: seq<string>, edgeTypes: seq<string>)
    requires code in SOURCE_TYPES
    ensures ShouldProcess(Flow(id, Number(code)), role, edgeIds, edgeTypes)
            == ShouldProcess(Flow(id, Word(SOURCE_TYPES[code])), role, edgeIds, edgeTypes)
            == ShouldProcess(Flow(id, Word(ShowInt(code))), role, edgeIds, edgeTypes)
  {
    FormsAgree(code);
  }

  // ----- Which flows an edge instance takes -----

  /** The text of a source type, cleaned. */
  function Plain(raw: Raw): string {
    match raw
    case Null => ""
    case Number(z) => ShowInt(z)
    case Word(s) => Clean(s)
  }

  /** The source type is the mapped one with this code: as the number, a numeral for it, or its name. */
  predicate Names(raw: Raw, code: int)
    requires code in SOURCE_TYPES
  {
    match raw
    case Null => false
    case Number(z) => z == code
    case Word(s) => Clean(s) == SOURCE_TYPES[code] || (IsDigits(Clean(s)) && Read(Clean(s)) == code)
  }

  /** The same mapped type in any two forms, or the same text. */
  ghost predicate SameType(a: Raw, b: Raw) {
    Plain(a) == Plain(b) || exists code :: code in SOURCE_TYPES && Names(a, code) && Names(b, code)
  }

  lemma NamesNormalize(raw: Raw, code: int)
    requires code in SOURCE_TYPES && Names(raw, code)
    ensures NormalizeSourceType(raw) == SOURCE_TYPES[code]
  {
    MappedNamesAreClean(code);
  }

  lemma DistinctNames(i: int, j: int)
    requires i in SOURCE_TYPES && j in SOURCE_TYPES && SOURCE_TYPES[i] == SOURCE_TYPES[j]
    ensures i == j
  {
    assert SOURCE_TYPES[i][0] == SOURCE_TYPES[j][0] && SOURCE_TYPES[i][1] == SOURCE_TYPES[j][1];
  }

  lemma UnnamedNormalize(raw: Raw)
    requires forall code :: code in SOURCE_TYPES ==> !Names(raw, code)
    ensures NormalizeSourceType(raw) == Plain(raw)
  {
    if raw.Word? && IsDigits(Clean(raw.s)) && Read(Clean(raw.s)) in SOURCE_TYPES {
      assert Names(raw, Read(Clean(raw.s)));
    }
    if raw.Number? && raw.z in SOURCE_TYPES {
      assert Names(raw, raw.z);
    }
  }

  /** What normalises to a mapped name is a form of that type. */
  lemma NormalizedToName(raw: Raw, code: int)
    requires code in SOURCE_TYPES && NormalizeSourceType(raw) == SOURCE_TYPES[code]
    ensures Names(raw, code)
  {
    MappedNamesAreClean(code);
    match raw
    case Null =>
    case Number(z) =>
      if z in SOURCE_TYPES {
        DistinctNames(z, code);
      } else {
        NumeralOrSigned(z, code);
      }
    case Word(s) =>
      if IsDigits(Clean(s)) && Read(Clean(s)) in SOURCE_TYPES {
        DistinctNames(Read(Clean(s)), code);
      }
  }

  lemma NumeralOrSigned(z: int, code: int)
    requires code in SOURCE_TYPES
    ensures ShowInt(z) != SOURCE_TYPES[code]
  {
    ShowIsClean(z);
    MappedNamesAreClean(code);
    if z < 0 {
      assert ShowInt(z)[0] == '-' && SOURCE_TYPES[code][0] != '-';
    }
  }

  /** Two source types normalise alike exactly when they are the same type. */
  lemma SameTypeExactly(a: Raw, b: Raw)
    ensures NormalizeSourceType(a) == NormalizeSourceType(b) <==> SameType(a, b)
  {
    if code :| code in SOURCE_TYPES && Names(a, code) {
      NamesNormalize(a, code);
      SameAsNamed(a, b, code);
    } else if code :| code in SOURCE_TYPES && Names(b, code) {
      NamesNormalize(b, code);
      SameAsNamed(b, a, code);
    } else {
      UnnamedNormalize(a);
      UnnamedNormalize(b);
    }
  }

  lemma SameAsNamed(a: Raw, b: Raw, code: int)
    requires code in SOURCE_TYPES && Names(a, code)
    ensures NormalizeSourceType(a) == NormalizeSourceType(b) <==> SameType(a, b)
    ensures NormalizeSourceType(b) == NormalizeSourceType(a) <==> SameType(b, a)
  {
    NamesNormalize(a, code);
    if NormalizeSourceType(a) == NormalizeSourceType(b) {
      NormalizedToName(b, code);
    }
    if other :| other in SOURCE_TYPES && Names(a, other) && Names(b, other) {
      NamesNormalize(a, other);
      NamesNormalize(b, other);
    }
    if Plain(a) == Plain(b) {
      PlainNormalize(a, b);
    }
  }

  lemma PlainNormalize(a: Raw, b: Raw)
    requires Plain(a) == Plain(b)
    ensures NormalizeSourceType(a) == NormalizeSourceType(b)
  {
    ByPlain(a);
    ByPlain(b);
  }

  /** The normal form depends on the cleaned text alone. */
  lemma ByPlain(raw: Raw)
    ensures var val := Plain(raw);
            NormalizeSourceType(raw) == if IsDigits(val) then Lookup(Read(val), val) else val
  {
    if raw.Number? {
      ShowIsClean(raw.z);
      if raw.z >= 0 {
        ReadShow(raw.z);
      }
    }
  }

  /** The flow's stripped id is listed, or its type is the same as a listed one that is not blank. */
  ghost predicate Listed(flow: Flow, edgeIds: seq<string>, edgeTypes: seq<string>) {
    || Strip(flow.sourceId) in edgeIds
    || exists t :: t in edgeTypes && Strip(t) != [] && SameType(flow.sourceType, Word(t))
  }

  lemma MatchesExactly(flow: Flow, edgeIds: seq<string>, edgeTypes: seq<string>)
    ensures Matches(flow, edgeIds, edgeTypes) <==> Listed(flow, edgeIds, edgeTypes)
  {
    forall t ensures NormalizeSourceType(flow.sourceType) == NormalizeSourceType(Word(t)) <==> SameType(flow.sourceType, Word(t)) {
      SameTypeExactly(flow.sourceType, Word(t));
    }
    var types := set t | t in edgeTypes && Strip(t) != [] :: NormalizeSourceType(Word(t));
    if t :| t in edgeTypes && Strip(t) != [] && SameType(flow.sourceType, Word(t)) {
      assert NormalizeSourceType(Word(t)) in types;
    }
  }

  /** Without filters every role takes every flow; with filters an edge instance takes exactly the listed flows, a central
      one exactly the others, and any other role everything. */
  lemma RolesExactly(flow: Flow, role: string, edgeIds: seq<string>, edgeTypes: seq<string>)
    ensures ShouldProcess(flow, role, edgeIds, edgeTypes) <==>
              || (edgeIds == [] && edgeTypes == [])
              || (IsEdge(role) && Listed(flow, edgeIds, edgeTypes))
              || (IsCentral(role) && !Listed(flow, edgeIds, edgeTypes))
              || (!IsEdge(role) && !IsCentral(role))
  {
    CentralIsClean();
    MatchesExactly(flow, edgeIds, edgeTypes);
  }
}
