/**
 The transformer end to end: the verdict on a record is its role filter, its validation and its
 coverage gate, and what the commit loop settles on any run is that verdict.
 */
module Pipeline {
  import CommitLoop
  import FeatureMask
  import FlowFeatures
  import Routing
  import Sequences

  datatype Gate = Gate(role: string, edgeIds: seq<string>, edgeTypes: seq<string>,
                       names: seq<FlowFeatures.Name>, maskEnabled: bool, minCoverage: real)

  /** A record of the log. `decodes` stands for payload decoding, `complete` for the schema and required-field checks,
      the other flags for what the outputs do with the event. */
  datatype Record = Record(decodes: bool, payload: FlowFeatures.Payload, complete: bool,
                           postgresFails: bool, serialises: bool, encodes: bool)

  function Route(p: FlowFeatures.Payload): Routing.Flow {
    Routing.Flow(p.sourceId, p.sourceType)
  }

  /** The event gets past the transform: nothing raises, it names its flow, and its coverage suffices. */
  ghost predicate Accepts(g: Gate, r: Record) {
    var event := FlowFeatures.EventOf(r.payload, g.names, g.maskEnabled);
    && r.complete && event.Some? && event.value.identity.flowId != ""
    && FlowFeatures.PassesCoverage(event.value, g.maskEnabled, g.minCoverage)
  }

  /** The `try` block of the loop body. */
  ghost function Judge(g: Gate, r: Record): CommitLoop.Verdict {
    if !r.decodes then CommitLoop.Reject
    else if !Routing.ShouldProcess(Route(r.payload), g.role, g.edgeIds, g.edgeTypes) then CommitLoop.Skip
    else if !Accepts(g, r) then CommitLoop.Reject
    else CommitLoop.Emit(r.postgresFails, r.serialises, r.encodes)
  }

  ghost predicate SettledAs(h: CommitLoop.History, offset: nat, outcome: CommitLoop.Outcome) {
    match h
    case Start => false
    case Then(b, x, _) => x == CommitLoop.Settled(offset, outcome) || SettledAs(b, offset, outcome)
  }

  lemma {:induction false} SettledVerdict(e: CommitLoop.Env, h: CommitLoop.History, offset: nat, outcome: CommitLoop.Outcome)
    requires CommitLoop.InOrder(e, h) && SettledAs(h, offset, outcome)
    ensures outcome == CommitLoop.OutcomeOf(e.log(offset))
  {
    if h.effect != CommitLoop.Settled(offset, outcome) {
      SettledVerdict(e, h.before, offset, outcome);
    }
  }

  /** The environment's log is this log of records, judged. */
  ghost predicate Judges(e: CommitLoop.Env, g: Gate, log: nat -> Record) {
    forall o: nat :: e.log(o) == Judge(g, log(o))
  }

  /** On every run, whoever decodes the mask of an emitted event finds at least the configured coverage. */
  lemma EmittedMeetsCoverage(c: CommitLoop.Config, e: CommitLoop.Env, i: nat, g: Gate, log: nat -> Record, offset: nat)
    requires CommitLoop.Clamped(c) && Judges(e, g, log) && g.maskEnabled
    requires |g.names| > 0 && FeatureMask.Width(|g.names|) % 2 == 0
    requires Sequences.Distinct(g.names) && FlowFeatures.CoversWritten(g.names)
    requires SettledAs(CommitLoop.Head(c, e, i).history, offset, CommitLoop.Emitted)
    ensures var event := FlowFeatures.EventOf(log(offset).payload, g.names, true);
            && event.Some?
            && var decoded := FeatureMask.FromHex(event.value.mask.value);
            decoded.Some? && FeatureMask.PopCountBytes(decoded.value) as real / |g.names| as real >= g.minCoverage
  {
    CommitLoop.HeadKeeps(c, e, i);
    SettledVerdict(e, CommitLoop.Head(c, e, i).history, offset, CommitLoop.Emitted);
    FlowFeatures.ProducedEvent(log(offset).payload, g.names, g.minCoverage);
  }

  /** An edge and a central instance with the same filters and the same log: once both have handled a decodable
      record, exactly one of them skipped it. */
  lemma OneInstanceTakesEach(c: CommitLoop.Config, e: CommitLoop.Env, i: nat, d: CommitLoop.Config, f: CommitLoop.Env, j: nat,
                             g: Gate, central: string, log: nat -> Record, offset: nat,
                             atEdge: CommitLoop.Outcome, atCentral: CommitLoop.Outcome)
    requires CommitLoop.Clamped(c) && CommitLoop.Clamped(d)
    requires Routing.IsEdge(g.role) && Routing.IsCentral(central) && (g.edgeIds != [] || g.edgeTypes != [])
    requires Judges(e, g, log) && Judges(f, g.(role := central), log) && log(offset).decodes
    requires SettledAs(CommitLoop.Head(c, e, i).history, offset, atEdge)
    requires SettledAs(CommitLoop.Head(d, f, j).history, offset, atCentral)
    ensures (atEdge == CommitLoop.Skipped) != (atCentral == CommitLoop.Skipped)
  {
    CommitLoop.HeadKeeps(c, e, i);
    CommitLoop.HeadKeeps(d, f, j);
    SettledVerdict(e, CommitLoop.Head(c, e, i).history, offset, atEdge);
    SettledVerdict(f, CommitLoop.Head(d, f, j).history, offset, atCentral);
    Routing.ExactlyOneRole(Route(log(offset).payload), g.role, central, g.edgeIds, g.edgeTypes);
  }

  /** Complete, readable, naming its flow, and covered well enough if masks are on. */
  ghost predicate IsAcceptable(g: Gate, r: Record) {
    && r.complete && r.payload.flowId != ""
    && FlowFeatures.ReadFlow(r.payload).Some? && FlowFeatures.ReadIdentity(r.payload).Some?
    && (g.maskEnabled ==>
          g.minCoverage <= FeatureMask.Coverage(FlowFeatures.Features(FlowFeatures.ReadFlow(r.payload).value, g.names)))
  }

  /** On every run, for every role: a record that cannot be decoded is dead-lettered; a decodable one is skipped exactly
      when its flow is not for this role, and of the others exactly those are emitted whose event is complete, names its
      flow and meets the coverage. */
  lemma OutcomeExactly(c: CommitLoop.Config, e: CommitLoop.Env, i: nat, g: Gate, log: nat -> Record, offset: nat,
                       outcome: CommitLoop.Outcome)
    requires CommitLoop.Clamped(c) && Judges(e, g, log)
    requires SettledAs(CommitLoop.Head(c, e, i).history, offset, outcome)
    ensures var r := log(offset);
            var mine := Routing.ShouldProcess(Route(r.payload), g.role, g.edgeIds, g.edgeTypes);
            && (!r.decodes ==> outcome == CommitLoop.DeadLettered)
            && (outcome == CommitLoop.Skipped <==> r.decodes && !mine)
            && (outcome == CommitLoop.Emitted <==> r.decodes && mine && IsAcceptable(g, r))
  {
    CommitLoop.HeadKeeps(c, e, i);
    SettledVerdict(e, CommitLoop.Head(c, e, i).history, offset, outcome);
    if FlowFeatures.EventOf(log(offset).payload, g.names, g.maskEnabled).Some? {
      FlowFeatures.IdentityOfPayload(log(offset).payload, g.names, g.maskEnabled);
    }
  }
}
