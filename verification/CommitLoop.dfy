/**
 The consume / transform / commit loop of the feature transformer, over one partition.

 The world outside the process is an `Env`: what each `poll` returns, what the transform makes of
 each record, and what each reading of the monotonic clock shows. All three are arbitrary total
 functions, so a statement about every `Env` and every number of loop iterations is a statement
 about every reachable loop head of every run. Everything the process does to the outside is
 recorded in a `History`, newest effect first.
 */
module CommitLoop {
  import opened Options

  datatype Config = Config(
    outputKafka: bool,
    writePostgres: bool,
    dryRun: bool,
    batchMode: bool,
    commitBatchSize: int,
    commitIntervalMs: int,
    producerSyncFlush: bool,
    producerFlushIntervalMs: int,
    drainMaxMessages: int,
    drainMaxMs: int,
    maxMessages: int)

  /** The clamps applied when the configuration is loaded. */
  predicate Clamped(c: Config) {
    && 1 <= c.drainMaxMessages && 0 <= c.drainMaxMs
    && 1 <= c.commitBatchSize && 1 <= c.commitIntervalMs
    && 1 <= c.producerFlushIntervalMs
  }

  /** The drain returns the first message alone. */
  predicate DrainOff(c: Config) {
    c.drainMaxMessages <= 1 || c.drainMaxMs <= 0
  }

  /** Events are inserted into the database. */
  predicate Writes(c: Config) {
    c.writePostgres && !c.dryRun
  }

  /** What one `consumer.poll` gives: nothing, an error event, the next record, or an exception. */
  datatype Poll = Quiet | ErrorEvent | Record | Raise

  /** What the transform makes of a record. `serialises` is false when rendering the event for a dead letter raises,
      `encodes` when building the output message does. */
  datatype Verdict = Skip | Reject | Emit(postgresFails: bool, serialises: bool, encodes: bool)

  datatype Env = Env(polls: nat -> Poll, log: nat -> Verdict, clock: nat -> real)

  /** Where a record can go: the two topics and the database table. */
  datatype Sink = Output | DeadLetter | Table
  datatype Outcome = Skipped | DeadLettered | Emitted

  datatype Effect =
    | Sent(offset: nat, sink: Sink)
    | Flushed
    | Settled(record: nat, outcome: Outcome)
    | Committed(upTo: nat)

  /** `at` is the number of clock readings made before the effect. */
  datatype History = Start | Then(before: History, effect: Effect, at: nat)

  datatype Phase = Running | Returned | Escaped

  datatype State = State(
    phase: Phase,
    polled: nat,
    ticks: nat,
    position: nat,
    pending: nat,
    lastCommitAt: real,
    lastFlushAt: real,
    processed: nat,
    history: History)

  datatype Item = Fault | Rec(offset: nat)

  // ----- The loop as a function of its environment -----

  function Trunc(x: real): int {
    if x >= 0.0 then x.Floor else -((-x).Floor)
  }

  function ElapsedMs(now: real, since: real): int {
    Trunc((now - since) * 1000.0)
  }

  function Note(s: State, effect: Effect): State {
    s.(history := Then(s.history, effect, s.ticks))
  }

  function Init(e: Env): State {
    State(Running, 0, 2, 0, 0, e.clock(0), e.clock(1), 0, Start)
  }

  /** `_maybe_commit`: a commit that names a message stores its offset plus one, a bare commit stores the position. */
  function MaybeCommit(c: Config, e: Env, s: State, message: Option<nat>, processed: bool, force: bool): State {
    if !c.batchMode then
      if processed && message.Some? then Note(s, Committed(message.value + 1))
      else if force then Note(s, Committed(s.position))
      else s
    else
      var s := if processed then s.(pending := s.pending + 1) else s;
      if force && s.pending == 0 then s
      else
        var now := e.clock(s.ticks);
        var s := s.(ticks := s.ticks + 1);
        if force || s.pending >= c.commitBatchSize || ElapsedMs(now, s.lastCommitAt) >= c.commitIntervalMs then
          Note(s, Committed(s.position)).(pending := 0, lastCommitAt := now)
        else s
  }

  /** `_maybe_flush_producer`. */
  function MaybeFlush(c: Config, e: Env, s: State, force: bool): State {
    if c.producerSyncFlush then Note(s, Flushed)
    else
      var now := e.clock(s.ticks);
      var s := s.(ticks := s.ticks + 1);
      if force || ElapsedMs(now, s.lastFlushAt) >= c.producerFlushIntervalMs then
        Note(s, Flushed).(lastFlushAt := now)
      else s
  }

  function Publish(c: Config, e: Env, s: State, offset: nat, topic: Sink): State {
    MaybeFlush(c, e, Note(s, Sent(offset, topic)), false)
  }

  /** The `finally` block. */
  function Finish(c: Config, e: Env, s: State, phase: Phase): State {
    MaybeFlush(c, e, MaybeCommit(c, e, s, None, false, true), true).(phase := phase)
  }

  /** The tail shared by the three ways a record is handled: commit, count, and return at `max_messages`. */
  function Settle(c: Config, e: Env, s: State, offset: nat, outcome: Outcome): State {
    var s := MaybeCommit(c, e, Note(s, Settled(offset, outcome)), Some(offset), true, false);
    var s := s.(processed := s.processed + 1);
    if c.maxMessages > 0 && s.processed >= c.maxMessages then
      Finish(c, e, MaybeFlush(c, e, MaybeCommit(c, e, s, None, false, true), true), Returned)
    else s
  }

  function HandleRecord(c: Config, e: Env, s: State, offset: nat): State {
    match e.log(offset)
    case Skip => Settle(c, e, s, offset, Skipped)
    case Reject =>
      Settle(c, e, if c.outputKafka then Publish(c, e, s, offset, DeadLetter) else s, offset, DeadLettered)
    case Emit(postgresFails, serialises, encodes) =>
      if Writes(c) && postgresFails && !serialises then Finish(c, e, s, Escaped)
      else
        var s := Insert(c, e, s, offset, postgresFails);
        if c.outputKafka && !encodes then Finish(c, e, s, Escaped)
        else Settle(c, e, if c.outputKafka then Publish(c, e, s, offset, Output) else s, offset, Emitted)
  }

  /** The database write: a failed insert is swallowed, with a dead letter if there is Kafka output. */
  function Insert(c: Config, e: Env, s: State, offset: nat, fails: bool): State {
    if !Writes(c) then s
    else if !fails then Note(s, Sent(offset, Table))
    else if c.outputKafka then Publish(c, e, s, offset, DeadLetter)
    else s
  }

  function HandleBatch(c: Config, e: Env, s: State, batch: seq<Item>): State
    decreases |batch|
  {
    if s.phase != Running || batch == [] then s
    else HandleBatch(c, e, if batch[0].Rec? then HandleRecord(c, e, s, batch[0].offset) else s, batch[1..])
  }

  datatype Drained = Drained(batch: seq<Item>, state: State, raised: bool)

  function Received(e: Env, s: State): (r: (Poll, State)) {
    var p := e.polls(s.polled);
    (p, s.(polled := s.polled + 1, position := if p.Record? then s.position + 1 else s.position))
  }

  function ItemOf(p: Poll, s: State): Item {
    if p.Record? then Rec(s.position) else Fault
  }

  /** The `while` loop of `_drain_batch`. */
  function DrainMore(c: Config, e: Env, s: State, batch: seq<Item>, deadline: real): Drained
    decreases c.drainMaxMessages - |batch|
  {
    if |batch| >= c.drainMaxMessages then Drained(batch, s, false)
    else
      var now := e.clock(s.ticks);
      var s := s.(ticks := s.ticks + 1);
      if deadline - now <= 0.0 then Drained(batch, s, false)
      else
        var (p, t) := Received(e, s);
        match p
        case Quiet => Drained(batch, t, false)
        case Raise => Drained(batch, t, true)
        case _ => DrainMore(c, e, t, batch + [ItemOf(p, s)], deadline)
  }

  function Drain(c: Config, e: Env, s: State, first: Item): Drained {
    if DrainOff(c) then Drained([first], s, false)
    else DrainMore(c, e, s.(ticks := s.ticks + 1), [first], e.clock(s.ticks) + c.drainMaxMs as real / 1000.0)
  }

  /** One iteration of `while True`. */
  function Iterate(c: Config, e: Env, s: State): State {
    var (p, t) := Received(e, s);
    match p
    case Quiet => t
    case Raise => Finish(c, e, t, Escaped)
    case _ =>
      var d := Drain(c, e, t, ItemOf(p, s));
      if d.raised then Finish(c, e, d.state, Escaped) else HandleBatch(c, e, d.state, d.batch)
  }

  /** The state at the loop head reached after `i` iterations; a run that left the loop stays where it is. */
  function Head(c: Config, e: Env, i: nat): State {
    if i == 0 then Init(e)
    else
      var s := Head(c, e, i - 1);
      if s.phase == Running then Iterate(c, e, s) else s
  }

  // ----- What a history says -----

  /** The number of records handled. */
  ghost function Handled(h: History): nat {
    match h
    case Start => 0
    case Then(b, Settled(_, _), _) => Handled(b) + 1
    case Then(b, _, _) => Handled(b)
  }

  ghost function CountOf(h: History, outcome: Outcome): nat {
    match h
    case Start => 0
    case Then(b, Settled(_, o), _) => CountOf(b, outcome) + if o == outcome then 1 else 0
    case Then(b, _, _) => CountOf(b, outcome)
  }

  /** The offset the broker stores for the group: the last one committed. */
  ghost function StoredOffset(h: History): nat {
    match h
    case Start => 0
    case Then(_, Committed(n), _) => n
    case Then(b, _, _) => StoredOffset(b)
  }

  /** The number of records handled since the last commit call. */
  ghost function SinceCommit(h: History): nat {
    match h
    case Start => 0
    case Then(_, Committed(_), _) => 0
    case Then(b, Settled(_, _), _) => SinceCommit(b) + 1
    case Then(b, _, _) => SinceCommit(b)
  }

  ghost predicate WasSent(h: History, offset: nat, sink: Sink) {
    match h
    case Start => false
    case Then(b, x, _) => x == Sent(offset, sink) || WasSent(b, offset, sink)
  }

  /** Sent and flushed afterwards. */
  ghost predicate WasFlushedOut(h: History, offset: nat, sink: Sink) {
    match h
    case Start => false
    case Then(b, x, _) => (x.Flushed? && WasSent(b, offset, sink)) || WasFlushedOut(b, offset, sink)
  }

  /** What the loop owes a record with this verdict. */
  predicate Owes(c: Config, v: Verdict, sink: Sink) {
    match v
    case Skip => false
    case Reject => c.outputKafka && sink == DeadLetter
    case Emit(fails, _, _) =>
      match sink
      case Output => c.outputKafka
      case DeadLetter => c.outputKafka && Writes(c) && fails
      case Table => Writes(c) && !fails
  }

  /** Everything owed to the record was sent, and flushed if each produce is to be flushed. */
  ghost predicate Delivered(c: Config, h: History, offset: nat, v: Verdict) {
    forall sink: Sink :: Owes(c, v, sink) ==>
      && WasSent(h, offset, sink)
      && (c.producerSyncFlush && sink != Table ==> WasFlushedOut(h, offset, sink))
  }

  /** Nothing was sent that was not owed. */
  ghost predicate OnlyOwed(c: Config, e: Env, h: History) {
    match h
    case Start => true
    case Then(b, x, _) => (x.Sent? ==> Owes(c, e.log(x.offset), x.sink)) && OnlyOwed(c, e, b)
  }

  /** The record was skipped, dead-lettered or emitted, and whatever was owed to it had gone out first. */
  ghost predicate WasHandled(c: Config, e: Env, h: History, offset: nat) {
    match h
    case Start => false
    case Then(b, x, _) => (x.Settled? && x.record == offset && Delivered(c, b, offset, e.log(offset))) || WasHandled(c, e, b, offset)
  }

  ghost predicate HandledBelow(c: Config, e: Env, h: History, n: nat) {
    forall offset: nat :: offset < n ==> WasHandled(c, e, h, offset)
  }

  /** At every commit, every record below the stored offset had been handled. */
  ghost predicate CommitSafe(c: Config, e: Env, h: History) {
    match h
    case Start => true
    case Then(b, x, _) => (x.Committed? ==> HandledBelow(c, e, b, x.upTo)) && CommitSafe(c, e, b)
  }

  function OutcomeOf(v: Verdict): Outcome {
    match v
    case Skip => Skipped
    case Reject => DeadLettered
    case Emit(_, _, _) => Emitted
  }

  /** Records are settled in log order, each once, each with the outcome the transform gave it. */
  ghost predicate InOrder(e: Env, h: History) {
    match h
    case Start => true
    case Then(b, x, _) => (x.Settled? ==> x.record == Handled(b) && x.outcome == OutcomeOf(e.log(x.record))) && InOrder(e, b)
  }

  /** `h` is an earlier point of the same history as `g`. */
  ghost predicate Precedes(h: History, g: History) {
    h == g || (g.Then? && Precedes(h, g.before))
  }

  // ----- What every iteration keeps -----

  ghost predicate Inv(c: Config, e: Env, s: State) {
    && InOrder(e, s.history) && OnlyOwed(c, e, s.history)
    && s.processed == Handled(s.history) <= s.position
    && HandledBelow(c, e, s.history, s.processed)
    && (c.maxMessages > 0 ==> s.processed <= c.maxMessages)
    && (c.maxMessages > 0 && s.phase == Running ==> s.processed < c.maxMessages)
    && (c.batchMode ==> s.pending == SinceCommit(s.history) < c.commitBatchSize && LagWithin(s.history, c.commitBatchSize))
    && (!c.batchMode ==> SinceCommit(s.history) == 0)
  }

  /** The records still waiting in the batch are exactly those between the handled count and the position. */
  ghost predicate Aligned(rest: seq<Item>, handled: nat, position: nat) {
    if rest == [] then handled == position
    else if rest[0].Fault? then Aligned(rest[1..], handled, position)
    else rest[0].offset == handled && Aligned(rest[1..], handled + 1, position)
  }

  lemma AlignedBound(rest: seq<Item>, handled: nat, position: nat)
    requires Aligned(rest, handled, position)
    ensures handled <= position
  {
  }

  lemma {:induction false} AlignedSnoc(rest: seq<Item>, handled: nat, position: nat, x: Item)
    requires Aligned(rest, handled, position)
    requires x.Rec? ==> x.offset == position
    ensures Aligned(rest + [x], handled, if x.Rec? then position + 1 else position)
  {
    if rest == [] {
      assert rest + [x] == [x];
    } else {
      assert (rest + [x])[1..] == rest[1..] + [x];
      AlignedSnoc(rest[1..], if rest[0].Fault? then handled else handled + 1, position, x);
    }
  }

  /** Every commit stores exactly the number of records handled by then. */
  ghost predicate ExactCommits(h: History) {
    match h
    case Start => true
    case Then(b, x, _) => (x.Committed? ==> x.upTo == Handled(b)) && ExactCommits(b)
  }

  /** At no point, not even between two effects of one iteration, are more than `limit` records handled and uncommitted. */
  ghost predicate LagWithin(h: History, limit: int) {
    SinceCommit(h) <= limit && (h.Then? ==> LagWithin(h.before, limit))
  }

  lemma HandledBelowGrows(c: Config, e: Env, h: History, x: Effect, n: nat)
    requires HandledBelow(c, e, h, n)
    ensures forall at: nat :: HandledBelow(c, e, Then(h, x, at), n)
  {
    forall at: nat, offset: nat | offset < n ensures WasHandled(c, e, Then(h, x, at), offset) {
      assert WasHandled(c, e, h, offset);
    }
  }

  /** What sending keeps: everything but the record of what was sent. */
  ghost predicate SentFrom(c: Config, e: Env, s: State, t: State) {
    && Inv(c, e, t)
    && t.phase == s.phase && t.position == s.position && t.pending == s.pending && t.processed == s.processed
    && (CommitSafe(c, e, s.history) <==> CommitSafe(c, e, t.history))
    && (ExactCommits(s.history) ==> ExactCommits(t.history))
    && (forall o, sink :: WasSent(s.history, o, sink) ==> WasSent(t.history, o, sink))
    && (forall o, sink :: WasFlushedOut(s.history, o, sink) ==> WasFlushedOut(t.history, o, sink))
  }

  lemma SentGrows(h: History, x: Effect)
    ensures forall o, sink, at :: WasSent(h, o, sink) ==> WasSent(Then(h, x, at), o, sink)
    ensures forall o, sink, at :: WasFlushedOut(h, o, sink) ==> WasFlushedOut(Then(h, x, at), o, sink)
  {
  }

  lemma PublishKeeps(c: Config, e: Env, s: State, offset: nat, topic: Sink)
    requires Inv(c, e, s) && Owes(c, e.log(offset), topic)
    ensures var t := Publish(c, e, s, offset, topic);
            && SentFrom(c, e, s, t)
            && WasSent(t.history, offset, topic)
            && (c.producerSyncFlush ==> WasFlushedOut(t.history, offset, topic))
  {
    var h := Then(s.history, Sent(offset, topic), s.ticks);
    HandledBelowGrows(c, e, s.history, Sent(offset, topic), s.processed);
    HandledBelowGrows(c, e, h, Flushed, s.processed);
    SentGrows(s.history, Sent(offset, topic));
    SentGrows(h, Flushed);
  }

  lemma InsertKeeps(c: Config, e: Env, s: State, offset: nat)
    requires Inv(c, e, s) && e.log(offset).Emit?
    ensures var v := e.log(offset);
            var t := Insert(c, e, s, offset, v.postgresFails);
            && SentFrom(c, e, s, t)
            && forall sink: Sink :: sink != Output && Owes(c, v, sink) ==>
                 WasSent(t.history, offset, sink) && (c.producerSyncFlush && sink != Table ==> WasFlushedOut(t.history, offset, sink))
  {
    if Writes(c) && !e.log(offset).postgresFails {
      HandledBelowGrows(c, e, s.history, Sent(offset, Table), s.processed);
      SentGrows(s.history, Sent(offset, Table));
    } else if Writes(c) && c.outputKafka {
      PublishKeeps(c, e, s, offset, DeadLetter);
    }
  }

  lemma FlushKeeps(c: Config, e: Env, s: State, force: bool)
    requires Inv(c, e, s)
    ensures var t := MaybeFlush(c, e, s, force);
            && Inv(c, e, t)
            && t.phase == s.phase && t.position == s.position && t.pending == s.pending && t.processed == s.processed
            && (CommitSafe(c, e, t.history) <==> CommitSafe(c, e, s.history))
            && (ExactCommits(s.history) ==> ExactCommits(t.history))
            && SinceCommit(t.history) == SinceCommit(s.history)
  {
    HandledBelowGrows(c, e, s.history, Flushed, s.processed);
  }

  /** A forced commit reaches past the handled records exactly when it fires with records unhandled. */
  lemma ForceKeeps(c: Config, e: Env, s: State)
    requires Clamped(c) && Inv(c, e, s) && CommitSafe(c, e, s.history)
    ensures var t := MaybeCommit(c, e, s, None, false, true);
            && Inv(c, e, t)
            && t.phase == s.phase && t.position == s.position && t.processed == s.processed
            && (CommitSafe(c, e, t.history) <==> s.position == s.processed || (c.batchMode && s.pending == 0))
            && (s.position == s.processed && ExactCommits(s.history) ==> ExactCommits(t.history))
            && SinceCommit(t.history) == 0
  {
    HandledBelowGrows(c, e, s.history, Committed(s.position), s.processed);
    if s.position != s.processed {
      SettledOnly(c, e, s.history, s.processed);
    }
  }

  /** A record whose turn has not come was not handled. */
  lemma {:induction false} SettledOnly(c: Config, e: Env, h: History, offset: nat)
    requires InOrder(e, h) && Handled(h) <= offset
    ensures !WasHandled(c, e, h, offset)
  {
    if h.Then? {
      SettledOnly(c, e, h.before, offset);
    }
  }

  /** Only commits that name their message are made before the loop is left. */
  predicate CommitsPerMessage(c: Config) {
    !c.batchMode && c.maxMessages <= 0
  }

  /** In sync mode nothing but messages is committed until the loop is left, and without a limit it is not left by itself. */
  predicate SafeUntilLeft(c: Config, t: State) {
    !c.batchMode && (t.phase == Running || c.maxMessages <= 0)
  }

  /** The commit that follows a settled record. */
  lemma CommitRecordKeeps(c: Config, e: Env, s: State, offset: nat, outcome: Outcome)
    requires Clamped(c) && Inv(c, e, s) && s.phase == Running
    requires offset == s.processed < s.position
    requires outcome == OutcomeOf(e.log(offset)) && Delivered(c, s.history, offset, e.log(offset))
    ensures var m := MaybeCommit(c, e, Note(s, Settled(offset, outcome)), Some(offset), true, false);
            var t := m.(processed := m.processed + 1);
            && Inv(c, e, t.(phase := Returned))
            && t.phase == Running && t.position == s.position && t.processed == s.processed + 1
            && (CommitSafe(c, e, s.history) && (s.position == offset + 1 || !c.batchMode) ==> CommitSafe(c, e, t.history))
            && (ExactCommits(s.history) && (s.position == offset + 1 || !c.batchMode) ==> ExactCommits(t.history))
  {
    var h := Then(s.history, Settled(offset, outcome), s.ticks);
    HandledBelowGrows(c, e, s.history, Settled(offset, outcome), offset);
    assert HandledBelow(c, e, h, offset + 1);
    HandledBelowGrows(c, e, h, Committed(offset + 1), offset + 1);
    HandledBelowGrows(c, e, h, Committed(s.position), offset + 1);
  }

  lemma FinishKeeps(c: Config, e: Env, s: State, phase: Phase)
    requires Clamped(c) && Inv(c, e, s) && CommitSafe(c, e, s.history) && phase != Running
    ensures var t := Finish(c, e, s, phase);
            && Inv(c, e, t)
            && t.phase == phase && t.position == s.position && t.processed == s.processed
            && (CommitSafe(c, e, t.history) <==> s.position == s.processed || (c.batchMode && s.pending == 0))
            && (s.position == s.processed && ExactCommits(s.history) ==> ExactCommits(t.history))
            && SinceCommit(t.history) == 0
  {
    ForceKeeps(c, e, s);
    FlushKeeps(c, e, MaybeCommit(c, e, s, None, false, true), true);
  }

  /** What leaving the loop, safe so far or not, keeps. */
  lemma LeaveKeepsInv(c: Config, e: Env, s: State, phase: Phase)
    requires Clamped(c) && Inv(c, e, s) && phase != Running
    ensures var t := MaybeFlush(c, e, MaybeCommit(c, e, s, None, false, true), true);
            Inv(c, e, t) && t.phase == s.phase && t.position == s.position && t.processed == s.processed
            && SinceCommit(t.history) == 0
    ensures var t := Finish(c, e, s, phase);
            Inv(c, e, t) && t.phase == phase && t.position == s.position && t.processed == s.processed
            && SinceCommit(t.history) == 0
  {
    HandledBelowGrows(c, e, s.history, Committed(s.position), s.processed);
    FlushKeeps(c, e, MaybeCommit(c, e, s, None, false, true), true);
  }

  /** A loop that has returned did so at its message limit, with nothing left to commit. */
  ghost predicate ReturnedWell(c: Config, s: State) {
    s.phase == Returned ==> SinceCommit(s.history) == 0 && s.processed == c.maxMessages > 0
  }

  lemma SettleKeeps(c: Config, e: Env, s: State, offset: nat, outcome: Outcome)
    requires Clamped(c) && Inv(c, e, s) && s.phase == Running
    requires offset == s.processed < s.position
    requires outcome == OutcomeOf(e.log(offset)) && Delivered(c, s.history, offset, e.log(offset))
    ensures var t := Settle(c, e, s, offset, outcome);
            && Inv(c, e, t)
            && t.phase != Escaped && t.position == s.position && t.processed == s.processed + 1
            && (CommitSafe(c, e, s.history) && (s.position == offset + 1 || SafeUntilLeft(c, t)) ==> CommitSafe(c, e, t.history))
            && (CommitSafe(c, e, s.history) && ExactCommits(s.history) && (s.position == offset + 1 || SafeUntilLeft(c, t)) ==>
                  ExactCommits(t.history))
            && ReturnedWell(c, t)
  {
    CommitRecordKeeps(c, e, s, offset, outcome);
    var committed := MaybeCommit(c, e, Note(s, Settled(offset, outcome)), Some(offset), true, false);
    var m := committed.(processed := committed.processed + 1);
    if c.maxMessages > 0 && m.processed >= c.maxMessages {
      ReturnKeeps(c, e, m);
    }
  }

  /** The return at the message limit: a forced commit and flush, and again in the `finally` block. */
  lemma ReturnKeeps(c: Config, e: Env, m: State)
    requires Clamped(c) && Inv(c, e, m.(phase := Returned)) && m.phase == Running && m.processed >= c.maxMessages > 0
    ensures var t := Finish(c, e, MaybeFlush(c, e, MaybeCommit(c, e, m, None, false, true), true), Returned);
            && Inv(c, e, t) && t.phase == Returned && t.position == m.position && t.processed == m.processed
            && ReturnedWell(c, t)
            && (CommitSafe(c, e, m.history) && m.position == m.processed ==>
                  CommitSafe(c, e, t.history) && (ExactCommits(m.history) ==> ExactCommits(t.history)))
  {
    var r := m.(phase := Returned);
    LeaveKeepsInv(c, e, r, Returned);
    var l := MaybeFlush(c, e, MaybeCommit(c, e, r, None, false, true), true);
    LeaveKeepsInv(c, e, l, Returned);
    if CommitSafe(c, e, m.history) && m.position == m.processed {
      ForceKeeps(c, e, r);
      FlushKeeps(c, e, MaybeCommit(c, e, r, None, false, true), true);
      FinishKeeps(c, e, l, Returned);
    }
    assert Finish(c, e, l.(phase := Running), Returned) == Finish(c, e, l, Returned);
  }

  /** Rendering or building a message for this record raises, so the exception leaves the loop. */
  predicate Escapes(c: Config, v: Verdict) {
    v.Emit? && ((Writes(c) && v.postgresFails && !v.serialises) || (c.outputKafka && !v.encodes))
  }

  /** What handling the record at `offset` keeps, in a state `t` reached from `s`. */
  ghost predicate KeptBy(c: Config, e: Env, s: State, offset: nat, t: State) {
    && Inv(c, e, t) && t.position == s.position
    && (t.phase == Escaped <==> Escapes(c, e.log(offset)))
    && t.processed == s.processed + (if t.phase == Escaped then 0 else 1)
    && (CommitSafe(c, e, s.history) && t.phase != Escaped && (s.position == offset + 1 || SafeUntilLeft(c, t)) ==>
          CommitSafe(c, e, t.history))
    && (CommitSafe(c, e, s.history) && t.phase == Escaped ==>
          (CommitSafe(c, e, t.history) <==> c.batchMode && s.pending == 0))
    && (CommitSafe(c, e, s.history) && ExactCommits(s.history) && (s.position == offset + 1 || SafeUntilLeft(c, t)) ==>
          t.phase == Escaped || ExactCommits(t.history))
    && ReturnedWell(c, t)
  }

  lemma EmitKeeps(c: Config, e: Env, s: State, offset: nat)
    requires Clamped(c) && Inv(c, e, s) && s.phase == Running && offset == s.processed < s.position && e.log(offset).Emit?
    ensures KeptBy(c, e, s, offset, HandleRecord(c, e, s, offset))
  {
    var v := e.log(offset);
    if Writes(c) && v.postgresFails && !v.serialises {
      LeaveKeeps(c, e, s, s, offset);
    } else {
      InsertKeeps(c, e, s, offset);
      var w := Insert(c, e, s, offset, v.postgresFails);
      if c.outputKafka && !v.encodes {
        LeaveKeeps(c, e, s, w, offset);
      } else if c.outputKafka {
        PublishKeeps(c, e, w, offset, Output);
        SettleKeeps(c, e, Publish(c, e, w, offset, Output), offset, Emitted);
      } else {
        SettleKeeps(c, e, w, offset, Emitted);
      }
    }
  }

  lemma LeaveKeeps(c: Config, e: Env, s: State, w: State, offset: nat)
    requires Clamped(c) && Inv(c, e, s) && s.phase == Running && offset == s.processed < s.position && Escapes(c, e.log(offset))
    requires SentFrom(c, e, s, w)
    ensures KeptBy(c, e, s, offset, Finish(c, e, w, Escaped))
  {
    LeaveKeepsInv(c, e, w, Escaped);
    if CommitSafe(c, e, w.history) {
      FinishKeeps(c, e, w, Escaped);
    }
  }

  lemma RecordKeeps(c: Config, e: Env, s: State, offset: nat)
    requires Clamped(c) && Inv(c, e, s) && s.phase == Running && offset == s.processed < s.position
    ensures KeptBy(c, e, s, offset, HandleRecord(c, e, s, offset))
  {
    match e.log(offset)
    case Skip => SettleKeeps(c, e, s, offset, Skipped);
    case Reject =>
      if c.outputKafka {
        PublishKeeps(c, e, s, offset, DeadLetter);
        SettleKeeps(c, e, Publish(c, e, s, offset, DeadLetter), offset, DeadLettered);
      } else {
        SettleKeeps(c, e, s, offset, DeadLettered);
      }
    case Emit(_, _, _) => EmitKeeps(c, e, s, offset);
  }

  /** Nothing the environment does makes an exception leave the loop. */
  ghost predicate NoEscape(c: Config, e: Env) {
    && (forall offset: nat :: !Escapes(c, e.log(offset)))
    && (forall k: nat :: e.polls(k) != Raise)
  }

  lemma {:induction false} BatchKeeps(c: Config, e: Env, s: State, batch: seq<Item>)
    requires Clamped(c) && Inv(c, e, s) && (s.phase == Running ==> Aligned(batch, s.processed, s.position))
    requires ReturnedWell(c, s)
    ensures var t := HandleBatch(c, e, s, batch);
            && Inv(c, e, t) && t.position == s.position && s.processed <= t.processed
            && (t.phase == Running ==> t.processed == t.position)
            && ReturnedWell(c, t)
            && (CommitSafe(c, e, s.history) && t.phase != Escaped && SafeUntilLeft(c, t) ==>
                  CommitSafe(c, e, t.history) && (ExactCommits(s.history) ==> ExactCommits(t.history)))
            && (CommitSafe(c, e, s.history) && !c.batchMode && s.phase == Running && t.phase == Escaped ==>
                  !CommitSafe(c, e, t.history) && t.processed < t.position)
            && (s.phase != Escaped && NoEscape(c, e) ==> t.phase != Escaped)
    decreases |batch|
  {
    if s.phase == Running && batch != [] {
      if batch[0].Rec? {
        AlignedBound(batch[1..], s.processed + 1, s.position);
        RecordKeeps(c, e, s, batch[0].offset);
        BatchKeeps(c, e, HandleRecord(c, e, s, batch[0].offset), batch[1..]);
      } else {
        BatchKeeps(c, e, s, batch[1..]);
      }
    }
  }

  /** Item after item is what the polls from `polled` on gave, within the limit, and draining ended before the limit
      only at a quiet poll, an exception, or a clock reading past the deadline. */
  ghost predicate DrainedFrom(c: Config, e: Env, polled: nat, known: nat, deadline: real, d: Drained) {
    && known <= |d.batch|
    && (forall k :: known <= k < |d.batch| ==> PollMatches(e.polls(polled + (k - known)), d.batch[k]))
    && (|d.batch| <= c.drainMaxMessages || |d.batch| == known)
    && (d.raised ==> e.polls(polled + (|d.batch| - known)) == Raise)
    && (!d.raised && |d.batch| < c.drainMaxMessages ==>
          || e.polls(polled + (|d.batch| - known)) == Quiet
          || (d.state.ticks > 0 && e.clock(d.state.ticks - 1) >= deadline))
  }

  predicate PollMatches(p: Poll, x: Item) {
    if x.Rec? then p == Record else p == ErrorEvent
  }

  lemma {:induction false} DrainMoreKeeps(c: Config, e: Env, s: State, batch: seq<Item>, deadline: real, handled: nat)
    requires Aligned(batch, handled, s.position)
    ensures var d := DrainMore(c, e, s, batch, deadline);
            && Aligned(d.batch, handled, d.state.position)
            && d.state == s.(polled := d.state.polled, ticks := d.state.ticks, position := d.state.position)
            && s.position <= d.state.position
            && ((forall k: nat :: e.polls(k) != Raise) ==> !d.raised)
    decreases c.drainMaxMessages - |batch|
  {
    if |batch| < c.drainMaxMessages {
      var ticked := s.(ticks := s.ticks + 1);
      var (p, t) := Received(e, ticked);
      if p.Record? || p.ErrorEvent? {
        AlignedSnoc(batch, handled, s.position, ItemOf(p, s));
        DrainMoreKeeps(c, e, t, batch + [ItemOf(p, s)], deadline, handled);
      }
    }
  }

  lemma {:induction false} DrainMoreFrom(c: Config, e: Env, s: State, batch: seq<Item>, deadline: real)
    ensures var d := DrainMore(c, e, s, batch, deadline);
            batch <= d.batch && DrainedFrom(c, e, s.polled, |batch|, deadline, d)
    decreases c.drainMaxMessages - |batch|
  {
    if |batch| < c.drainMaxMessages {
      var (p, t) := Received(e, s.(ticks := s.ticks + 1));
      if (p.Record? || p.ErrorEvent?) && deadline - e.clock(s.ticks) > 0.0 {
        var more := batch + [ItemOf(p, s)];
        DrainMoreFrom(c, e, t, more, deadline);
        var d := DrainMore(c, e, t, more, deadline);
        Continues(batch, ItemOf(p, s), d.batch);
        DrainedOneMore(c, e, s.polled, |batch|, deadline, d);
      }
    }
  }

  lemma Continues(batch: seq<Item>, x: Item, all: seq<Item>)
    requires batch + [x] <= all
    ensures batch <= all && |batch| < |all| && all[|batch|] == x
  {
    assert (batch + [x])[|batch|] == all[|batch|];
    assert batch == (batch + [x])[..|batch|] == all[..|batch|];
  }

  lemma DrainedOneMore(c: Config, e: Env, polled: nat, known: nat, deadline: real, d: Drained)
    requires DrainedFrom(c, e, polled + 1, known + 1, deadline, d) && PollMatches(e.polls(polled), d.batch[known])
    requires known < c.drainMaxMessages
    ensures DrainedFrom(c, e, polled, known, deadline, d)
  {
    forall k | known <= k < |d.batch| ensures PollMatches(e.polls(polled + (k - known)), d.batch[k]) {
      if k > known {
        assert PollMatches(e.polls(polled + 1 + (k - (known + 1))), d.batch[k]);
      }
    }
    assert polled + 1 + (|d.batch| - (known + 1)) == polled + (|d.batch| - known);
  }

  lemma DrainKeeps(c: Config, e: Env, s: State, first: Item, handled: nat)
    requires Aligned([first], handled, s.position)
    ensures var d := Drain(c, e, s, first);
            && Aligned(d.batch, handled, d.state.position)
            && d.state == s.(polled := d.state.polled, ticks := d.state.ticks, position := d.state.position)
            && s.position <= d.state.position
            && ((forall k: nat :: e.polls(k) != Raise) ==> !d.raised)
            && (c.drainMaxMessages <= 1 || c.drainMaxMs <= 0 ==> d.batch == [first])
            && (c.drainMaxMessages >= 2 && c.drainMaxMs >= 1 ==> DrainedFrom(c, e, s.polled, 1, e.clock(s.ticks) + c.drainMaxMs as real / 1000.0, d))
  {
    if !DrainOff(c) {
      var deadline := e.clock(s.ticks) + c.drainMaxMs as real / 1000.0;
      DrainMoreKeeps(c, e, s.(ticks := s.ticks + 1), [first], deadline, handled);
      DrainMoreFrom(c, e, s.(ticks := s.ticks + 1), [first], deadline);
    }
  }

  /** What holds at every loop head, and after the loop. */
  ghost predicate AtHead(c: Config, e: Env, s: State) {
    && Inv(c, e, s)
    && (s.phase == Running ==> s.processed == s.position)
    && ReturnedWell(c, s)
    && (s.phase != Escaped && SafeUntilLeft(c, s) ==> CommitSafe(c, e, s.history) && ExactCommits(s.history))
    && (NoEscape(c, e) ==> s.phase != Escaped)
  }

  lemma IterateKeeps(c: Config, e: Env, s: State)
    requires Clamped(c) && AtHead(c, e, s) && s.phase == Running
    ensures AtHead(c, e, Iterate(c, e, s))
  {
    var (p, t) := Received(e, s);
    if p.Raise? {
      LeaveKeepsInv(c, e, t, Escaped);
    } else if !p.Quiet? {
      DrainKeeps(c, e, t, ItemOf(p, s), s.processed);
      var d := Drain(c, e, t, ItemOf(p, s));
      AlignedBound(d.batch, s.processed, d.state.position);
      if d.raised {
        LeaveKeepsInv(c, e, d.state, Escaped);
      } else {
        BatchKeeps(c, e, d.state, d.batch);
      }
    }
  }

  lemma {:induction false} HeadKeeps(c: Config, e: Env, i: nat)
    requires Clamped(c)
    ensures AtHead(c, e, Head(c, e, i))
  {
    if i > 0 {
      HeadKeeps(c, e, i - 1);
      var s := Head(c, e, i - 1);
      if s.phase == Running {
        IterateKeeps(c, e, s);
      }
    }
  }
}
