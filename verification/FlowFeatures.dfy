/**
 From a flow to a feature event: which features a flow yields, the event built from them, and the
 coverage gate. The names the transformer can fill are enumerations, one per group of the payload;
 the raw timing and flag fields of a flow are kept as they arrive, so that a missing or unreadable
 one counts as unknown.
 */
module FlowFeatures {
  import opened Options
  import opened FeatureMask
  import opened Sequences
  import Routing

  datatype PortKey = SrcPort | DstPort | Protocol

  datatype MetricKey =
    FlowDuration | TotFwdPkts | TotBwdPkts | TotlenFwdPkts | TotlenBwdPkts | FlowBytsS |
    FlowPktsS | FwdPktsS | BwdPktsS | PktSizeAvg | FwdPktLenMean | FwdSegSizeAvg |
    BwdPktLenMean | BwdSegSizeAvg | DownUpRatio

  datatype TimingKey =
    FlowIatMean | FlowIatStd | FlowIatMax | FlowIatMin | FwdIatTot | FwdIatMean |
    FwdIatStd | FwdIatMax | FwdIatMin | BwdIatTot | BwdIatMean | BwdIatStd |
    BwdIatMax | BwdIatMin | ActiveMean | ActiveStd | ActiveMax | ActiveMin |
    IdleMean | IdleStd | IdleMax | IdleMin

  datatype FlagKey =
    FinFlagCnt | SynFlagCnt | RstFlagCnt | PshFlagCnt | AckFlagCnt | UrgFlagCnt |
    CweFlagCount | EceFlagCnt

  /** A feature name: one the transformer can fill, or some other column. */
  datatype Name = Port(p: PortKey) | Metric(m: MetricKey) | Timing(t: TimingKey) | Flag(f: FlagKey) | Other(column: string)

  /** A payload field: missing or null, blank text, text that is no number, or a number. */
  datatype Field = Missing | Blank | Junk | Number(value: real)

  function MaybeFloat(raw: Field): Option<real> {
    if raw.Number? then Some(raw.value) else None
  }

  /** A payload field read with `int(... or 0)`: missing or empty, something `int` takes, or something it raises on. */
  datatype Whole = Absent | Whole(z: int) | Unreadable

  function AsInt(w: Whole): Option<int> {
    match w
    case Absent => Some(0)
    case Whole(z) => Some(z)
    case Unreadable => None
  }

  /** The payload as it arrives. */
  datatype Payload = Payload(
    ts: Whole, tenantId: string, flowId: string, srcIp: string, dstIp: string,
    sourceType: Routing.Raw, sourceId: string, sourceEventTs: Whole, ingestTs: Whole,
    srcPort: Whole, dstPort: Whole, proto: Whole,
    metricsKnown: bool, durationMs: Whole, bytesFwd: Whole, bytesBwd: Whole, pktsFwd: Whole, pktsBwd: Whole,
    timingKnown: bool, flagsKnown: bool,
    timing: map<TimingKey, Field>, flags: map<FlagKey, Field>)

  /** What the features are computed from; the metric fields count only if the metrics are known. */
  datatype Flow = Flow(
    srcPort: int, dstPort: int, proto: int,
    metricsKnown: bool, durationMs: int, bytesFwd: int, bytesBwd: int, pktsFwd: int, pktsBwd: int,
    timingKnown: bool, flagsKnown: bool,
    timing: map<TimingKey, Field>, flags: map<FlagKey, Field>)

  predicate Readable(w: Whole) {
    !w.Unreadable?
  }

  predicate MetricsReadable(p: Payload) {
    Readable(p.durationMs) && Readable(p.bytesFwd) && Readable(p.bytesBwd) && Readable(p.pktsFwd) && Readable(p.pktsBwd)
  }

  /** The integers read from a payload; metric fields are read only when the metrics are claimed known. */
  function ReadFlow(p: Payload): Option<Flow> {
    if AsInt(p.srcPort).None? || AsInt(p.dstPort).None? || AsInt(p.proto).None? then None
    else
      var src, dst, proto := AsInt(p.srcPort).value, AsInt(p.dstPort).value, AsInt(p.proto).value;
      if !p.metricsKnown then Some(Flow(src, dst, proto, false, 0, 0, 0, 0, 0, p.timingKnown, p.flagsKnown, p.timing, p.flags))
      else if AsInt(p.durationMs).None? || AsInt(p.bytesFwd).None? || AsInt(p.bytesBwd).None? then None
      else if AsInt(p.pktsFwd).None? || AsInt(p.pktsBwd).None? then None
      else Some(Flow(src, dst, proto, true, AsInt(p.durationMs).value, AsInt(p.bytesFwd).value, AsInt(p.bytesBwd).value,
                     AsInt(p.pktsFwd).value, AsInt(p.pktsBwd).value, p.timingKnown, p.flagsKnown, p.timing, p.flags))
  }

  function TimingField(flow: Flow, t: TimingKey): Field {
    if t in flow.timing then flow.timing[t] else Missing
  }

  function FlagField(flow: Flow, f: FlagKey): Field {
    if f in flow.flags then flow.flags[f] else Missing
  }

  function PortValue(flow: Flow, p: PortKey): int {
    match p
    case SrcPort => flow.srcPort
    case DstPort => flow.dstPort
    case Protocol => flow.proto
  }

  function Ratio(written: bool, num: int, den: real): Option<real>
    requires written ==> den != 0.0
  {
    if written then Some(num as real / den) else None
  }

  function Seconds(flow: Flow): real {
    if flow.durationMs > 0 then flow.durationMs as real / 1000.0 else 0.0
  }

  /** The metric written under `m`, if the flow's duration and packet counts let it be written at all. */
  function MetricValue(flow: Flow, m: MetricKey): Option<real> {
    var seconds := Seconds(flow);
    var bytes := flow.bytesFwd + flow.bytesBwd;
    var pkts := flow.pktsFwd + flow.pktsBwd;
    match m
    case FlowDuration => Some(flow.durationMs as real)
    case TotFwdPkts => Some(flow.pktsFwd as real)
    case TotBwdPkts => Some(flow.pktsBwd as real)
    case TotlenFwdPkts => Some(flow.bytesFwd as real)
    case TotlenBwdPkts => Some(flow.bytesBwd as real)
    case FlowBytsS => Ratio(seconds > 0.0, bytes, seconds)
    case FlowPktsS => Ratio(seconds > 0.0, pkts, seconds)
    case FwdPktsS => Ratio(seconds > 0.0, flow.pktsFwd, seconds)
    case BwdPktsS => Ratio(seconds > 0.0, flow.pktsBwd, seconds)
    case PktSizeAvg => Ratio(pkts > 0, bytes, pkts as real)
    case FwdPktLenMean => Ratio(flow.pktsFwd > 0, flow.bytesFwd, flow.pktsFwd as real)
    case FwdSegSizeAvg => Ratio(flow.pktsFwd > 0, flow.bytesFwd, flow.pktsFwd as real)
    case BwdPktLenMean => Ratio(flow.pktsBwd > 0, flow.bytesBwd, flow.pktsBwd as real)
    case BwdSegSizeAvg => Ratio(flow.pktsBwd > 0, flow.bytesBwd, flow.pktsBwd as real)
    case DownUpRatio => Ratio(flow.pktsFwd > 0, flow.pktsBwd, flow.pktsFwd as real)
  }

  function PortPart(flow: Flow): Values<Name> {
    map p: PortKey | true :: Port(p) := Some(PortValue(flow, p) as real)
  }

  function MetricPart(flow: Flow): Values<Name> {
    map m: MetricKey | MetricValue(flow, m).Some? :: Metric(m) := MetricValue(flow, m)
  }

  function TimingPart(flow: Flow): Values<Name> {
    map t: TimingKey | true :: Timing(t) := MaybeFloat(TimingField(flow, t))
  }

  function FlagPart(flow: Flow): Values<Name> {
    map f: FlagKey | true :: Flag(f) := MaybeFloat(FlagField(flow, f))
  }

  /** What `_compute_features` yields: every name unknown, then the groups the flow claims to know, one over the other. */
  function Features(flow: Flow, names: seq<Name>): Values<Name> {
    var values := (map k | k in names :: None) + PortPart(flow);
    var values := if flow.metricsKnown then values + MetricPart(flow) else values;
    var values := if flow.timingKnown then values + TimingPart(flow) else values;
    if flow.flagsKnown then values + FlagPart(flow) else values
  }

  // ----- Filling the dictionary -----

  function Totals(flow: Flow): Values<Name> {
    map[Metric(FlowDuration) := Some(flow.durationMs as real),
        Metric(TotFwdPkts) := Some(flow.pktsFwd as real), Metric(TotBwdPkts) := Some(flow.pktsBwd as real),
        Metric(TotlenFwdPkts) := Some(flow.bytesFwd as real), Metric(TotlenBwdPkts) := Some(flow.bytesBwd as real)]
  }

  function Rates(flow: Flow): Values<Name>
    requires Seconds(flow) > 0.0
  {
    var s := Seconds(flow);
    map[Metric(FlowBytsS) := Some((flow.bytesFwd + flow.bytesBwd) as real / s),
        Metric(FlowPktsS) := Some((flow.pktsFwd + flow.pktsBwd) as real / s),
        Metric(FwdPktsS) := Some(flow.pktsFwd as real / s), Metric(BwdPktsS) := Some(flow.pktsBwd as real / s)]
  }

  function PacketSize(flow: Flow): Values<Name>
    requires flow.pktsFwd + flow.pktsBwd > 0
  {
    map[Metric(PktSizeAvg) := Some((flow.bytesFwd + flow.bytesBwd) as real / (flow.pktsFwd + flow.pktsBwd) as real)]
  }

  function ForwardMeans(flow: Flow): Values<Name>
    requires flow.pktsFwd > 0
  {
    var mean := flow.bytesFwd as real / flow.pktsFwd as real;
    map[Metric(FwdPktLenMean) := Some(mean), Metric(FwdSegSizeAvg) := Some(mean)]
  }

  function BackwardMeans(flow: Flow): Values<Name>
    requires flow.pktsBwd > 0
  {
    var mean := flow.bytesBwd as real / flow.pktsBwd as real;
    map[Metric(BwdPktLenMean) := Some(mean), Metric(BwdSegSizeAvg) := Some(mean)]
  }

  function DownUp(flow: Flow): Values<Name>
    requires flow.pktsFwd > 0
  {
    map[Metric(DownUpRatio) := Some(flow.pktsBwd as real / flow.pktsFwd as real)]
  }

  /** The values the formulas give under some of the metrics. */
  ghost function Part(flow: Flow, keys: set<MetricKey>): Values<Name> {
    map m | m in keys && MetricValue(flow, m).Some? :: Metric(m) := MetricValue(flow, m)
  }

  /** One guarded write. */
  lemma Extended(flow: Flow, out: Values<Name>, keys: set<MetricKey>, guard: bool, add: Values<Name>, more: set<MetricKey>)
    requires out == Part(flow, keys) && (if guard then add else map[]) == Part(flow, more)
    ensures (if guard then out + add else out) == Part(flow, keys + more)
  {
    assert Part(flow, keys) + Part(flow, more) == Part(flow, keys + more);
  }

  const TOTALS := {FlowDuration, TotFwdPkts, TotBwdPkts, TotlenFwdPkts, TotlenBwdPkts}
  const RATES := {FlowBytsS, FlowPktsS, FwdPktsS, BwdPktsS}
  const FORWARD := {FwdPktLenMean, FwdSegSizeAvg}
  const BACKWARD := {BwdPktLenMean, BwdSegSizeAvg}

  lemma TotalsArePart(flow: Flow)
    ensures Totals(flow) == Part(flow, TOTALS)
  {
  }

  lemma RatesArePart(flow: Flow)
    ensures (if Seconds(flow) > 0.0 then Rates(flow) else map[]) == Part(flow, RATES)
  {
  }

  lemma SizeIsPart(flow: Flow)
    ensures (if flow.pktsFwd + flow.pktsBwd > 0 then PacketSize(flow) else map[]) == Part(flow, {PktSizeAvg})
  {
  }

  lemma ForwardArePart(flow: Flow)
    ensures (if flow.pktsFwd > 0 then ForwardMeans(flow) else map[]) == Part(flow, FORWARD)
    ensures (if flow.pktsFwd > 0 then DownUp(flow) else map[]) == Part(flow, {DownUpRatio})
  {
  }

  lemma BackwardArePart(flow: Flow)
    ensures (if flow.pktsBwd > 0 then BackwardMeans(flow) else map[]) == Part(flow, BACKWARD)
  {
  }

  lemma AllMetrics(m: MetricKey)
    ensures m in TOTALS + RATES + {PktSizeAvg} + FORWARD + BACKWARD + {DownUpRatio}
  {
    match m case FlowDuration => case _ =>
  }

  lemma PartsChain(flow: Flow, totals: Values<Name>, timed: bool, rates: Values<Name>, any: bool, size: Values<Name>,
                   fwd: bool, forward: Values<Name>, bwd: bool, backward: Values<Name>, updown: Values<Name>)
    requires totals == Part(flow, TOTALS)
    requires (if timed then rates else map[]) == Part(flow, RATES) && (if any then size else map[]) == Part(flow, {PktSizeAvg})
    requires (if fwd then forward else map[]) == Part(flow, FORWARD) && (if bwd then backward else map[]) == Part(flow, BACKWARD)
    requires (if fwd then updown else map[]) == Part(flow, {DownUpRatio})
    ensures var out := if timed then totals + rates else totals;
            var out := if any then out + size else out;
            var out := if fwd then out + forward else out;
            var out := if bwd then out + backward else out;
            (if fwd then out + updown else out) == MetricPart(flow)
  {
    Extended(flow, totals, TOTALS, timed, rates, RATES);
    var out, keys := if timed then totals + rates else totals, TOTALS + RATES;
    Extended(flow, out, keys, any, size, {PktSizeAvg});
    out, keys := if any then out + size else out, keys + {PktSizeAvg};
    Extended(flow, out, keys, fwd, forward, FORWARD);
    out, keys := if fwd then out + forward else out, keys + FORWARD;
    Extended(flow, out, keys, bwd, backward, BACKWARD);
    out, keys := if bwd then out + backward else out, keys + BACKWARD;
    Extended(flow, out, keys, fwd, updown, {DownUpRatio});
    AllPart(flow, keys + {DownUpRatio});
  }

  lemma GroupsJoin(flow: Flow)
    ensures var out := if Seconds(flow) > 0.0 then Totals(flow) + Rates(flow) else Totals(flow);
            var out := if flow.pktsFwd + flow.pktsBwd > 0 then out + PacketSize(flow) else out;
            var out := if flow.pktsFwd > 0 then out + ForwardMeans(flow) else out;
            var out := if flow.pktsBwd > 0 then out + BackwardMeans(flow) else out;
            (if flow.pktsFwd > 0 then out + DownUp(flow) else out) == MetricPart(flow)
  {
    TotalsArePart(flow);
    RatesArePart(flow);
    SizeIsPart(flow);
    ForwardArePart(flow);
    BackwardArePart(flow);
    var timed, any, fwd, bwd := Seconds(flow) > 0.0, flow.pktsFwd + flow.pktsBwd > 0, flow.pktsFwd > 0, flow.pktsBwd > 0;
    PartsChain(flow, Totals(flow), timed, if timed then Rates(flow) else map[], any, if any then PacketSize(flow) else map[],
               fwd, if fwd then ForwardMeans(flow) else map[], bwd, if bwd then BackwardMeans(flow) else map[],
               if fwd then DownUp(flow) else map[]);
  }

  lemma AllPart(flow: Flow, keys: set<MetricKey>)
    requires keys == TOTALS + RATES + {PktSizeAvg} + FORWARD + BACKWARD + {DownUpRatio}
    ensures Part(flow, keys) == MetricPart(flow)
  {
    forall m: MetricKey ensures m in keys {
      AllMetrics(m);
    }
  }

  /** The guarded writes of the metrics branch leave under each metric the value its own formula gives, or nothing. */
  method WriteMetrics(flow: Flow) returns (out: Values<Name>)
    ensures out == MetricPart(flow)
  {
    GroupsJoin(flow);
    out := Totals(flow);
    if Seconds(flow) > 0.0 {
      out := out + Rates(flow);
    }
    if flow.pktsFwd + flow.pktsBwd > 0 {
      out := out + PacketSize(flow);
    }
    if flow.pktsFwd > 0 {
      out := out + ForwardMeans(flow);
    }
    if flow.pktsBwd > 0 {
      out := out + BackwardMeans(flow);
    }
    if flow.pktsFwd > 0 {
      out := out + DownUp(flow);
    }
  }

  /** `_compute_features`: it raises exactly when some integer it reads is unreadable. */
  method ComputeFeatures(p: Payload, names: seq<Name>) returns (values: Option<Values<Name>>)
    ensures values.Some? <==> ReadFlow(p).Some?
    ensures ReadFlow(p).Some? ==> values.value == Features(ReadFlow(p).value, names)
  {
    var read := ReadFlow(p);
    if read.None? {
      return None;
    }
    var flow := read.value;
    var out := (map k | k in names :: None) + PortPart(flow);
    if flow.metricsKnown {
      var metrics := WriteMetrics(flow);
      out := out + metrics;
    }
    if flow.timingKnown {
      out := out + TimingPart(flow);
    }
    if flow.flagsKnown {
      out := out + FlagPart(flow);
    }
    values := Some(out);
  }

  // ----- Knowing more only adds mask bits -----

  /** The same flow with more of its groups known. */
  predicate KnowsMore(flow: Flow, more: Flow) {
    && more.timing == flow.timing && more.flags == flow.flags
    && (flow.metricsKnown ==> more == flow.(timingKnown := more.timingKnown, flagsKnown := more.flagsKnown))
    && (flow.timingKnown ==> more.timingKnown)
    && (flow.flagsKnown ==> more.flagsKnown)
  }

  /** The flow yields a value for `k`. */
  predicate Yields(flow: Flow, k: Name) {
    match k
    case Port(_) => true
    case Metric(m) => flow.metricsKnown && MetricValue(flow, m).Some?
    case Timing(t) => flow.timingKnown && TimingField(flow, t).Number?
    case Flag(f) => flow.flagsKnown && FlagField(flow, f).Number?
    case Other(_) => false
  }

  lemma PresentFrom(flow: Flow, names: seq<Name>, k: Name)
    ensures Present(Features(flow, names), k) <==> Yields(flow, k)
  {
  }

  lemma KnowingYieldsMore(flow: Flow, more: Flow, k: Name)
    requires KnowsMore(flow, more) && Yields(flow, k)
    ensures Yields(more, k)
  {
    if k.Metric? {
      MetricsAlike(flow, more, k.m);
    }
  }

  lemma MetricsAlike(flow: Flow, more: Flow, m: MetricKey)
    requires KnowsMore(flow, more) && flow.metricsKnown
    ensures MetricValue(flow, m).Some? == MetricValue(more, m).Some?
  {
    match m case FlowDuration => case _ =>
  }

  /** Turning any of the three `known` claims on only adds bits to the mask. */
  lemma KnowingAddsBits(flow: Flow, more: Flow, names: seq<Name>)
    requires KnowsMore(flow, more) && names != []
    ensures var v, w := MaskHex(Features(flow, names), names), MaskHex(Features(more, names), names);
            && IsHex(v) && IsHex(w)
            && (forall i: nat :: Bit(HexValue(v), i) ==> Bit(HexValue(w), i))
  {
    var v, w := Features(flow, names), Features(more, names);
    forall i | 0 <= i < |names| && Present(v, names[i]) ensures Present(w, names[i]) {
      PresentFrom(flow, names, names[i]);
      KnowingYieldsMore(flow, more, names[i]);
      PresentFrom(more, names, names[i]);
    }
    MorePresentMoreBits(v, w, names);
  }

  /** The same payload with more claims. */
  predicate ClaimsMore(p: Payload, q: Payload) {
    && q == p.(metricsKnown := q.metricsKnown, timingKnown := q.timingKnown, flagsKnown := q.flagsKnown)
    && (p.metricsKnown ==> q.metricsKnown)
    && (p.timingKnown ==> q.timingKnown)
    && (p.flagsKnown ==> q.flagsKnown)
  }

  /** Claiming more keeps a payload readable exactly when the metrics it then claims are readable, and in that case only
      adds bits to the mask. */
  lemma ClaimingAddsBits(p: Payload, q: Payload, names: seq<Name>)
    requires ClaimsMore(p, q) && ReadFlow(p).Some? && names != []
    ensures ReadFlow(q).Some? <==> (q.metricsKnown ==> MetricsReadable(p))
    ensures ReadFlow(q).Some? ==>
              var v := MaskHex(Features(ReadFlow(p).value, names), names);
              var w := MaskHex(Features(ReadFlow(q).value, names), names);
              && IsHex(v) && IsHex(w)
              && (forall i: nat :: Bit(HexValue(v), i) ==> Bit(HexValue(w), i))
  {
    if ReadFlow(q).Some? {
      KnowingAddsBits(ReadFlow(p).value, ReadFlow(q).value, names);
    }
  }

  // ----- The event and its coverage gate -----

  /** The fields of an event that say which flow it is. */
  datatype Identity = Identity(ts: int, tenantId: string, flowId: string, srcIp: string, dstIp: string,
                               sourceType: string, sourceId: string, sourceEventTs: int, ingestTs: int)

  datatype Event = Event(identity: Identity, mask: Option<string>, coverage: Option<real>, features: map<Name, real>)

  function ReadIdentity(p: Payload): Option<Identity> {
    if AsInt(p.ts).None? || AsInt(p.sourceEventTs).None? || AsInt(p.ingestTs).None? then None
    else Some(Identity(AsInt(p.ts).value, p.tenantId, p.flowId, p.srcIp, p.dstIp, Routing.NormalizeSourceType(p.sourceType),
                       p.sourceId, AsInt(p.sourceEventTs).value, AsInt(p.ingestTs).value))
  }

  ghost function EventFrom(identity: Identity, values: Values<Name>, names: seq<Name>, maskEnabled: bool): Event {
    if maskEnabled then Event(identity, Some(MaskHex(values, names)), Some(Coverage(values)), Imputed(values))
    else Event(identity, None, None, Imputed(values))
  }

  /** The event of a payload, if none of its integers makes the transform raise. */
  ghost function EventOf(p: Payload, names: seq<Name>, maskEnabled: bool): Option<Event> {
    if ReadFlow(p).None? || ReadIdentity(p).None? then None
    else Some(EventFrom(ReadIdentity(p).value, Features(ReadFlow(p).value, names), names, maskEnabled))
  }

  /** `transform_flow`. */
  method TransformFlow(p: Payload, names: seq<Name>, maskEnabled: bool) returns (event: Option<Event>)
    ensures event == EventOf(p, names, maskEnabled)
  {
    var computed := ComputeFeatures(p, names);
    if computed.None? {
      return None;
    }
    var values := computed.value;
    var coverage := Coverage(values);
    var mask := Mask(values, names);
    var features := Impute(values);
    var identity := ReadIdentity(p);
    if identity.None? {
      return None;
    }
    var out := Event(identity.value, None, None, features);
    if maskEnabled {
      out := out.(mask := Some(mask), coverage := Some(coverage));
    }
    event := Some(out);
  }

  /** The coverage test an event must pass before it is produced. */
  ghost predicate PassesCoverage(event: Event, maskEnabled: bool, minCoverage: real) {
    maskEnabled ==> (if event.coverage.Some? then event.coverage.value else 0.0) >= minCoverage
  }

  /** The transformer writes no key outside the name list. */
  ghost predicate CoversWritten(names: seq<Name>) {
    forall k: Name :: !k.Other? ==> k in names
  }

  lemma KeysAreNames(flow: Flow, names: seq<Name>)
    requires CoversWritten(names)
    ensures Features(flow, names).Keys == Elements(names)
  {
    forall k ensures k in Features(flow, names).Keys <==> k in Elements(names) {
      assert k in names <==> exists i :: 0 <= i < |names| && names[i] == k;
    }
  }

  /** Whoever decodes the mask of a produced event finds the coverage the gate demanded, and all the optional values. */
  lemma ProducedEvent(p: Payload, names: seq<Name>, minCoverage: real)
    requires |names| > 0 && Width(|names|) % 2 == 0 && Distinct(names) && CoversWritten(names)
    requires EventOf(p, names, true).Some? && PassesCoverage(EventOf(p, names, true).value, true, minCoverage)
    ensures ReadFlow(p).Some?
    ensures var values := Features(ReadFlow(p).value, names);
            var event := EventOf(p, names, true).value;
            var decoded := FromHex(event.mask.value);
            && decoded.Some?
            && PopCountBytes(decoded.value) as real / |names| as real >= minCoverage
            && |names| <= 8 * |decoded.value|
            && (forall i :: 0 <= i < |names| ==> names[i] in values && names[i] in event.features)
            && (forall i :: 0 <= i < |names| ==> Recover(decoded.value, event.features, names)[i] == values[names[i]])
  {
    var flow := ReadFlow(p).value;
    var values := Features(flow, names);
    KeysAreNames(flow, names);
    CoverageIsPopCount(values, names);
    MaskRoundTrip(values, names);
    forall i | 0 <= i < |names| ensures names[i] in values {
      assert names[i] in Elements(names);
    }
    RecoverInverts(values, names);
  }

  /** The 79 columns of the extractor give ten mask bytes. */
  lemma TenMaskBytes(flow: Flow, names: seq<Name>)
    requires |names| == 79
    ensures var decoded := FromHex(MaskHex(Features(flow, names), names));
            decoded.Some? && |decoded.value| == 10
  {
    MaskRoundTrip(Features(flow, names), names);
  }

  const PORTS: seq<Name> := [Port(SrcPort), Port(DstPort), Port(Protocol)]

  const METRICS: seq<Name> := [
    Metric(FlowDuration), Metric(TotFwdPkts), Metric(TotBwdPkts), Metric(TotlenFwdPkts), Metric(TotlenBwdPkts), Metric(FlowBytsS),
    Metric(FlowPktsS), Metric(FwdPktsS), Metric(BwdPktsS), Metric(PktSizeAvg), Metric(FwdPktLenMean), Metric(FwdSegSizeAvg),
    Metric(BwdPktLenMean), Metric(BwdSegSizeAvg), Metric(DownUpRatio)]

  const TIMINGS: seq<Name> := [
    Timing(FlowIatMean), Timing(FlowIatStd), Timing(FlowIatMax), Timing(FlowIatMin), Timing(FwdIatTot), Timing(FwdIatMean),
    Timing(FwdIatStd), Timing(FwdIatMax), Timing(FwdIatMin), Timing(BwdIatTot), Timing(BwdIatMean), Timing(BwdIatStd),
    Timing(BwdIatMax), Timing(BwdIatMin), Timing(ActiveMean), Timing(ActiveStd), Timing(ActiveMax), Timing(ActiveMin),
    Timing(IdleMean), Timing(IdleStd), Timing(IdleMax), Timing(IdleMin)]

  const FLAGS: seq<Name> := [
    Flag(FinFlagCnt), Flag(SynFlagCnt), Flag(RstFlagCnt), Flag(PshFlagCnt), Flag(AckFlagCnt), Flag(UrgFlagCnt),
    Flag(CweFlagCount), Flag(EceFlagCnt)]

  lemma GroupsListed(k: Name)
    ensures k.Port? ==> k in PORTS
    ensures k.Metric? ==> k in METRICS
    ensures k.Timing? ==> k in TIMINGS
    ensures k.Flag? ==> k in FLAGS
  {
    match k
    case Port(p) => match p { case SrcPort => case _ => }
    case Metric(m) => match m { case FlowDuration => case _ => }
    case Timing(t) => match t { case FlowIatMean => case _ => }
    case Flag(f) => match f { case FinFlagCnt => case _ => }
    case Other(_) =>
  }

  /** At most as many values are present as there are names that could be. */
  lemma PresentBound(flow: Flow, names: seq<Name>, keys: seq<Name>)
    requires forall k :: Present(Features(flow, names), k) ==> k in keys
    ensures |PresentKeys(Features(flow, names))| <= |keys|
  {
    var v := Features(flow, names);
    ElementsSize(keys);
    forall k | k in PresentKeys(v) ensures k in Elements(keys) {
      assert Present(v, k);
    }
    SubsetSize(PresentKeys(v), Elements(keys));
  }

  /** Leaving the metrics unknown leaves at most 33 values present, leaving the timing unknown at most 26. */
  lemma UnknownBound(flow: Flow, names: seq<Name>)
    ensures !flow.metricsKnown ==> |PresentKeys(Features(flow, names))| <= 33
    ensures !flow.timingKnown ==> |PresentKeys(Features(flow, names))| <= 26
  {
    var v := Features(flow, names);
    forall k | Present(v, k)
      ensures !flow.metricsKnown ==> k in PORTS + TIMINGS + FLAGS
      ensures !flow.timingKnown ==> k in PORTS + METRICS + FLAGS
    {
      PresentFrom(flow, names, k);
      GroupsListed(k);
    }
    if !flow.metricsKnown {
      PresentBound(flow, names, PORTS + TIMINGS + FLAGS);
    }
    if !flow.timingKnown {
      PresentBound(flow, names, PORTS + METRICS + FLAGS);
    }
  }

  /** 33 of 79 is below 0.45. */
  lemma TooFewPresent(v: Values<Name>)
    requires |v| == 79 && |PresentKeys(v)| <= 33
    ensures Coverage(v) < 0.45
  {
  }

  lemma SizeOfFeatures(flow: Flow, names: seq<Name>)
    requires Distinct(names) && CoversWritten(names)
    ensures |Features(flow, names)| == |names|
  {
    KeysAreNames(flow, names);
    ElementsSize(names);
    assert |Features(flow, names)| == |Features(flow, names).Keys|;
  }

  lemma CoverageNeedsMetricsAndTiming(flow: Flow, names: seq<Name>)
    requires |names| == 79 && Distinct(names) && CoversWritten(names) && Coverage(Features(flow, names)) >= 0.45
    ensures flow.metricsKnown && flow.timingKnown
  {
    SizeOfFeatures(flow, names);
    UnknownBound(flow, names);
    if |PresentKeys(Features(flow, names))| <= 33 {
      TooFewPresent(Features(flow, names));
    }
  }

  /** With the extractor's 79 columns and the default threshold 0.45, only payloads that claim both their
      metrics and their timing known are produced. */
  lemma DefaultGateNeedsMetricsAndTiming(p: Payload, names: seq<Name>)
    requires |names| == 79 && Distinct(names) && CoversWritten(names)
    requires EventOf(p, names, true).Some? && PassesCoverage(EventOf(p, names, true).value, true, 0.45)
    ensures p.metricsKnown && p.timingKnown
  {
    CoverageNeedsMetricsAndTiming(ReadFlow(p).value, names);
  }

  // ----- What the fields of an event say about the payload -----

  /** The integer a readable field stands for: zero when it is missing. */
  function IntOf(w: Whole): int {
    if w.Whole? then w.z else 0
  }

  lemma IdentityOfPayload(p: Payload, names: seq<Name>, maskEnabled: bool)
    requires EventOf(p, names, maskEnabled).Some?
    ensures var id := EventOf(p, names, maskEnabled).value.identity;
            && id.ts == IntOf(p.ts) && id.sourceEventTs == IntOf(p.sourceEventTs) && id.ingestTs == IntOf(p.ingestTs)
            && id.tenantId == p.tenantId && id.flowId == p.flowId && id.srcIp == p.srcIp && id.dstIp == p.dstIp
            && id.sourceId == p.sourceId && id.sourceType == Routing.NormalizeSourceType(p.sourceType)
    ensures EventOf(p, names, maskEnabled).value.mask.Some? <==> maskEnabled
    ensures EventOf(p, names, maskEnabled).value.coverage.Some? <==> maskEnabled
  {
  }

  lemma PartsApart(flow: Flow, names: seq<Name>)
    ensures var v := Features(flow, names);
            && (forall p: PortKey :: Port(p) in v && v[Port(p)] == Some(PortValue(flow, p) as real))
            && (forall m: MetricKey :: flow.metricsKnown && MetricValue(flow, m).Some? ==>
                  Metric(m) in v && v[Metric(m)] == MetricValue(flow, m))
            && (forall t: TimingKey :: flow.timingKnown ==> Timing(t) in v && v[Timing(t)] == MaybeFloat(TimingField(flow, t)))
            && (forall f: FlagKey :: flow.flagsKnown ==> Flag(f) in v && v[Flag(f)] == MaybeFloat(FlagField(flow, f)))
  {
  }

  /** The ports, the timing and the flags of an event are the payload's. */
  lemma PlainFieldsOfPayload(p: Payload, names: seq<Name>, maskEnabled: bool)
    requires EventOf(p, names, maskEnabled).Some?
    ensures var f := EventOf(p, names, maskEnabled).value.features;
            && Port(SrcPort) in f && f[Port(SrcPort)] == IntOf(p.srcPort) as real
            && Port(DstPort) in f && f[Port(DstPort)] == IntOf(p.dstPort) as real
            && Port(Protocol) in f && f[Port(Protocol)] == IntOf(p.proto) as real
            && (forall t: TimingKey :: p.timingKnown && t in p.timing && p.timing[t].Number? ==>
                  Timing(t) in f && f[Timing(t)] == p.timing[t].value)
            && (forall g: FlagKey :: p.flagsKnown && g in p.flags && p.flags[g].Number? ==>
                  Flag(g) in f && f[Flag(g)] == p.flags[g].value)
  {
    PartsApart(ReadFlow(p).value, names);
  }

  lemma Undo(num: int, den: real)
    requires den != 0.0
    ensures num as real / den * den == num as real
  {
  }

  lemma PerSecond(num: int, ms: int)
    requires ms > 0
    ensures num as real / (ms as real / 1000.0) * ms as real == 1000.0 * num as real
  {
    var s := ms as real / 1000.0;
    Undo(num, s);
    assert ms as real == 1000.0 * s;
  }

  lemma TotalsOfFlow(flow: Flow)
    ensures MetricValue(flow, FlowDuration) == Some(flow.durationMs as real)
    ensures MetricValue(flow, TotFwdPkts) == Some(flow.pktsFwd as real) && MetricValue(flow, TotBwdPkts) == Some(flow.pktsBwd as real)
    ensures MetricValue(flow, TotlenFwdPkts) == Some(flow.bytesFwd as real)
    ensures MetricValue(flow, TotlenBwdPkts) == Some(flow.bytesBwd as real)
  {
  }

  /** The value times its denominator is its numerator; without a positive denominator there is no value. */
  ghost predicate IsRatio(value: Option<real>, num: real, den: int) {
    if den > 0 then value.Some? && value.value * den as real == num else value.None?
  }

  lemma RatesOfFlow(flow: Flow)
    ensures IsRatio(MetricValue(flow, FlowBytsS), 1000.0 * (flow.bytesFwd + flow.bytesBwd) as real, flow.durationMs)
    ensures IsRatio(MetricValue(flow, FlowPktsS), 1000.0 * (flow.pktsFwd + flow.pktsBwd) as real, flow.durationMs)
    ensures IsRatio(MetricValue(flow, FwdPktsS), 1000.0 * flow.pktsFwd as real, flow.durationMs)
    ensures IsRatio(MetricValue(flow, BwdPktsS), 1000.0 * flow.pktsBwd as real, flow.durationMs)
  {
    if flow.durationMs > 0 {
      PerSecond(flow.bytesFwd + flow.bytesBwd, flow.durationMs);
      PerSecond(flow.pktsFwd + flow.pktsBwd, flow.durationMs);
      PerSecond(flow.pktsFwd, flow.durationMs);
      PerSecond(flow.pktsBwd, flow.durationMs);
    }
  }

  lemma RatioIs(num: int, den: int)
    ensures IsRatio(Ratio(den > 0, num, den as real), num as real, den)
  {
    if den > 0 {
      Undo(num, den as real);
    }
  }

  lemma MeansOfFlow(flow: Flow)
    ensures IsRatio(MetricValue(flow, PktSizeAvg), (flow.bytesFwd + flow.bytesBwd) as real, flow.pktsFwd + flow.pktsBwd)
    ensures IsRatio(MetricValue(flow, FwdPktLenMean), flow.bytesFwd as real, flow.pktsFwd)
    ensures IsRatio(MetricValue(flow, FwdSegSizeAvg), flow.bytesFwd as real, flow.pktsFwd)
    ensures IsRatio(MetricValue(flow, BwdPktLenMean), flow.bytesBwd as real, flow.pktsBwd)
    ensures IsRatio(MetricValue(flow, BwdSegSizeAvg), flow.bytesBwd as real, flow.pktsBwd)
    ensures IsRatio(MetricValue(flow, DownUpRatio), flow.pktsBwd as real, flow.pktsFwd)
  {
    RatioIs(flow.bytesFwd + flow.bytesBwd, flow.pktsFwd + flow.pktsBwd);
    RatioIs(flow.bytesFwd, flow.pktsFwd);
    RatioIs(flow.pktsBwd, flow.pktsFwd);
    RatioIs(flow.bytesBwd, flow.pktsBwd);
  }

  /** A metric of the event, if the flow's counts let it be written. */
  ghost function MetricOf(event: Event, m: MetricKey): Option<real> {
    if Metric(m) in event.features then Some(event.features[Metric(m)]) else None
  }

  /** The metrics an event can carry, as facts about the payload's counters. */
  lemma MetricsOfPayload(p: Payload, names: seq<Name>, maskEnabled: bool, m: MetricKey)
    requires EventOf(p, names, maskEnabled).Some? && p.metricsKnown
    ensures var flow := ReadFlow(p).value;
            && flow.durationMs == IntOf(p.durationMs)
            && flow.bytesFwd == IntOf(p.bytesFwd) && flow.bytesBwd == IntOf(p.bytesBwd)
            && flow.pktsFwd == IntOf(p.pktsFwd) && flow.pktsBwd == IntOf(p.pktsBwd)
            && (MetricValue(flow, m).Some? ==> MetricOf(EventOf(p, names, maskEnabled).value, m) == MetricValue(flow, m))
  {
    PartsApart(ReadFlow(p).value, names);
  }

  /** Wherever the decoded mask of an event has no bit, the feature is zero. */
  lemma ClearBitMeansZero(p: Payload, names: seq<Name>, i: nat)
    requires EventOf(p, names, true).Some? && i < |names| && Width(|names|) % 2 == 0
    ensures var event := EventOf(p, names, true).value;
            var decoded := FromHex(event.mask.value);
            && decoded.Some? && i < 8 * |decoded.value| && names[i] in event.features
            && (!BitOfBytes(decoded.value, i) ==> event.features[names[i]] == 0.0)
            && (BitOfBytes(decoded.value, i) <==> Yields(ReadFlow(p).value, names[i]))
  {
    var flow := ReadFlow(p).value;
    assert names[i] in names;
    PresentFrom(flow, names, names[i]);
    MaskRoundTrip(Features(flow, names), names);
    UnknownIsZero(Features(flow, names), names, i);
  }
}
