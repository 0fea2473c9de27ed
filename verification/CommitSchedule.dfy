/** When the commit loop commits and flushes, and how its iterations end. */
module CommitSchedule {
  import opened Options
  import opened CommitLoop
  import opened CommitRuns

  // ----- When the loop commits and flushes -----

  /** The clock reading the last flush went by, and the last commit. */
  ghost function FlushReading(h: History): int {
    match h
    case Start => 1
    case Then(_, Flushed, at) => at - 1
    case Then(b, _, _) => FlushReading(b)
  }

  ghost function CommitReading(h: History): int {
    match h
    case Start => 0
    case Then(_, Committed(_), at) => at - 1
    case Then(b, _, _) => CommitReading(b)
  }

  ghost function Reading(e: Env, k: int): real {
    if k >= 0 then e.clock(k) else 0.0
  }

  /** A produce has just been made, and each is to be flushed or the flush interval is over. */
  ghost predicate FlushDue(c: Config, e: Env, h: History) {
    && h.Then? && h.effect.Sent? && h.effect.sink != Table
    && (c.producerSyncFlush
        || (e.clock(h.at) - Reading(e, FlushReading(h.before))) * 1000.0 >= c.producerFlushIntervalMs as real)
  }

  /** A record has just been settled, and each is committed, or the batch is full, or the commit interval is over. */
  ghost predicate CommitDue(c: Config, e: Env, h: History) {
    && h.Then? && h.effect.Settled?
    && (|| !c.batchMode
        || SinceCommit(h) >= c.commitBatchSize
        || (e.clock(h.at) - Reading(e, CommitReading(h.before))) * 1000.0 >= c.commitIntervalMs as real)
  }

  /** Every flush and every commit was made exactly where one was due. */
  ghost predicate OnSchedule(c: Config, e: Env, h: History) {
    h.Then? ==>
      && OnSchedule(c, e, h.before)
      && (h.effect.Flushed? <==> FlushDue(c, e, h.before))
      && (h.effect.Committed? <==> CommitDue(c, e, h.before))
  }

  /** On schedule, with nothing due, and the loop's own timestamps telling the truth. */
  ghost predicate Punctual(c: Config, e: Env, s: State) {
    && OnSchedule(c, e, s.history) && !FlushDue(c, e, s.history) && !CommitDue(c, e, s.history)
    && (!c.producerSyncFlush ==> s.lastFlushAt == Reading(e, FlushReading(s.history)))
    && (c.batchMode ==> s.lastCommitAt == Reading(e, CommitReading(s.history)) && s.pending == SinceCommit(s.history))
  }

  /** Whole milliseconds reach a positive number of them exactly when the time does. */
  lemma ElapsedReaches(now: real, since: real, ms: int)
    requires ms >= 1
    ensures ElapsedMs(now, since) >= ms <==> (now - since) * 1000.0 >= ms as real
  {
  }

  lemma PublishPunctual(c: Config, e: Env, s: State, offset: nat, topic: Sink)
    requires Clamped(c) && Punctual(c, e, s) && topic != Table
    ensures Punctual(c, e, Publish(c, e, s, offset, topic))
    ensures Publish(c, e, s, offset, topic).phase == s.phase
  {
    ElapsedReaches(e.clock(s.ticks), s.lastFlushAt, c.producerFlushIntervalMs);
  }

  lemma InsertPunctual(c: Config, e: Env, s: State, offset: nat, fails: bool)
    requires Clamped(c) && Punctual(c, e, s)
    ensures Punctual(c, e, Insert(c, e, s, offset, fails)) && Insert(c, e, s, offset, fails).phase == s.phase
  {
    if Writes(c) && fails && c.outputKafka {
      PublishPunctual(c, e, s, offset, DeadLetter);
    }
  }

  lemma CommitPunctual(c: Config, e: Env, s: State, offset: nat, outcome: Outcome)
    requires Clamped(c) && Punctual(c, e, s)
    ensures Punctual(c, e, MaybeCommit(c, e, Note(s, Settled(offset, outcome)), Some(offset), true, false))
  {
    ElapsedReaches(e.clock(s.ticks), s.lastCommitAt, c.commitIntervalMs);
  }

  /** The last thing the loop did was to flush. */
  ghost predicate EndsFlushed(s: State) {
    s.history.Then? && s.history.effect.Flushed?
  }

  /** While it runs the loop is on schedule; when it is left it ends with a flush. */
  ghost predicate WellTimed(c: Config, e: Env, s: State) {
    if s.phase == Running then Punctual(c, e, s) else EndsFlushed(s)
  }

  lemma FinishFlushes(c: Config, e: Env, s: State, phase: Phase)
    ensures EndsFlushed(Finish(c, e, s, phase)) && Finish(c, e, s, phase).phase == phase
  {
  }

  lemma SettleTimed(c: Config, e: Env, s: State, offset: nat, outcome: Outcome)
    requires Clamped(c) && Punctual(c, e, s) && s.phase == Running
    ensures WellTimed(c, e, Settle(c, e, s, offset, outcome))
  {
    CommitPunctual(c, e, s, offset, outcome);
    var m := MaybeCommit(c, e, Note(s, Settled(offset, outcome)), Some(offset), true, false);
    var q := m.(processed := m.processed + 1);
    FinishFlushes(c, e, MaybeFlush(c, e, MaybeCommit(c, e, q, None, false, true), true), Returned);
  }

  lemma RecordTimed(c: Config, e: Env, s: State, offset: nat)
    requires Clamped(c) && Punctual(c, e, s) && s.phase == Running
    ensures WellTimed(c, e, HandleRecord(c, e, s, offset))
  {
    match e.log(offset)
    case Skip => SettleTimed(c, e, s, offset, Skipped);
    case Reject =>
      if c.outputKafka {
        PublishPunctual(c, e, s, offset, DeadLetter);
        SettleTimed(c, e, Publish(c, e, s, offset, DeadLetter), offset, DeadLettered);
      } else {
        SettleTimed(c, e, s, offset, DeadLettered);
      }
    case Emit(fails, _, _) =>
      InsertPunctual(c, e, s, offset, fails);
      var w := Insert(c, e, s, offset, fails);
      FinishFlushes(c, e, s, Escaped);
      FinishFlushes(c, e, w, Escaped);
      if c.outputKafka {
        PublishPunctual(c, e, w, offset, Output);
        SettleTimed(c, e, Publish(c, e, w, offset, Output), offset, Emitted);
      } else {
        SettleTimed(c, e, w, offset, Emitted);
      }
  }

  lemma {:induction false} BatchTimed(c: Config, e: Env, s: State, batch: seq<Item>)
    requires Clamped(c) && WellTimed(c, e, s)
    ensures WellTimed(c, e, HandleBatch(c, e, s, batch))
    decreases |batch|
  {
    if s.phase == Running && batch != [] {
      if batch[0].Rec? {
        RecordTimed(c, e, s, batch[0].offset);
        BatchTimed(c, e, HandleRecord(c, e, s, batch[0].offset), batch[1..]);
      } else {
        BatchTimed(c, e, s, batch[1..]);
      }
    }
  }

  lemma {:induction false} DrainFrame(c: Config, e: Env, s: State, batch: seq<Item>, deadline: real)
    ensures var d := DrainMore(c, e, s, batch, deadline);
            d.state == s.(polled := d.state.polled, ticks := d.state.ticks, position := d.state.position)
    decreases c.drainMaxMessages - |batch|
  {
    if |batch| < c.drainMaxMessages {
      var ticked := s.(ticks := s.ticks + 1);
      var (p, t) := Received(e, ticked);
      if p.Record? || p.ErrorEvent? {
        DrainFrame(c, e, t, batch + [ItemOf(p, s)], deadline);
      }
    }
  }

  /** Every commit and every flush of every run comes exactly where it is due, until the loop is left; and a loop that
      is left, by return or exception, ends with a flush. */
  lemma {:induction false} HeadTimed(c: Config, e: Env, i: nat)
    requires Clamped(c)
    ensures WellTimed(c, e, Head(c, e, i))
  {
    if i > 0 {
      HeadTimed(c, e, i - 1);
      var s := Head(c, e, i - 1);
      if s.phase == Running {
        var (p, t) := Received(e, s);
        if p.Record? || p.ErrorEvent? {
          if !DrainOff(c) {
            DrainFrame(c, e, t.(ticks := t.ticks + 1), [ItemOf(p, s)], e.clock(t.ticks) + c.drainMaxMs as real / 1000.0);
          }
          var d := Drain(c, e, t, ItemOf(p, s));
          BatchTimed(c, e, d.state, d.batch);
        }
      }
    }
  }

  /** What `OnSchedule` says of one step of a history. */
  lemma {:induction false} ScheduledStep(c: Config, e: Env, h: History, b: History, x: Effect, at: nat)
    requires OnSchedule(c, e, h) && Precedes(Then(b, x, at), h)
    ensures (x.Flushed? <==> FlushDue(c, e, b)) && (x.Committed? <==> CommitDue(c, e, b))
  {
    if h != Then(b, x, at) {
      ScheduledStep(c, e, h.before, b, x, at);
    }
  }

  /** Once the loop is left, everything ever produced has been flushed out. */
  lemma LeftFlushed(c: Config, e: Env, i: nat, offset: nat, sink: Sink)
    requires Clamped(c) && Head(c, e, i).phase != Running && WasSent(Head(c, e, i).history, offset, sink)
    ensures WasFlushedOut(Head(c, e, i).history, offset, sink)
  {
    HeadTimed(c, e, i);
  }

  /** In sync mode, drained or not, everything handled is committed at every head of the running loop. */
  lemma SyncCommitsAll(c: Config, e: Env, i: nat)
    requires Clamped(c) && !c.batchMode && Head(c, e, i).phase == Running
    ensures var h := Head(c, e, i).history; StoredOffset(h) == Handled(h)
  {
    HeadKeeps(c, e, i);
    ExactLag(Head(c, e, i).history);
  }

  // ----- How an iteration ends -----

  /** Some polled record within the message limit makes its handling raise. */
  ghost predicate RaisesIn(c: Config, e: Env, batch: seq<Item>) {
    exists k :: 0 <= k < |batch| && RaisesAt(c, e, batch[k])
  }

  ghost predicate RaisesAt(c: Config, e: Env, x: Item) {
    x.Rec? && Escapes(c, e.log(x.offset)) && (c.maxMessages > 0 ==> x.offset < c.maxMessages)
  }

  lemma {:induction false} AlignedOffsets(batch: seq<Item>, handled: nat, position: nat, k: nat)
    requires Aligned(batch, handled, position) && k < |batch| && batch[k].Rec?
    ensures handled <= batch[k].offset < position
    decreases |batch|
  {
    if k == 0 {
      AlignedBound(batch[1..], handled + 1, position);
    } else {
      AlignedOffsets(batch[1..], if batch[0].Fault? then handled else handled + 1, position, k - 1);
    }
  }

  lemma RaisesInTail(c: Config, e: Env, batch: seq<Item>)
    requires batch != []
    ensures RaisesIn(c, e, batch) <==> RaisesAt(c, e, batch[0]) || RaisesIn(c, e, batch[1..])
  {
    if RaisesIn(c, e, batch) {
      var k :| 0 <= k < |batch| && RaisesAt(c, e, batch[k]);
      assert k > 0 ==> RaisesAt(c, e, batch[1..][k - 1]);
    }
    if RaisesIn(c, e, batch[1..]) {
      var k :| 0 <= k < |batch[1..]| && RaisesAt(c, e, batch[1..][k]);
      assert RaisesAt(c, e, batch[k + 1]);
    }
  }

  lemma {:induction false} BatchRaises(c: Config, e: Env, s: State, batch: seq<Item>)
    requires Clamped(c) && Inv(c, e, s) && s.phase == Running && Aligned(batch, s.processed, s.position)
    ensures HandleBatch(c, e, s, batch).phase == Escaped <==> RaisesIn(c, e, batch)
    decreases |batch|
  {
    if batch != [] {
      RaisesInTail(c, e, batch);
      if batch[0].Rec? {
        AlignedBound(batch[1..], s.processed + 1, s.position);
        RecordKeeps(c, e, s, batch[0].offset);
        var t := HandleRecord(c, e, s, batch[0].offset);
        if t.phase == Running {
          BatchRaises(c, e, t, batch[1..]);
        } else if t.phase == Returned {
          forall k | 0 <= k < |batch[1..]| ensures !RaisesAt(c, e, batch[1..][k]) {
            if batch[1..][k].Rec? {
              AlignedOffsets(batch[1..], s.processed + 1, s.position, k);
            }
          }
        }
      } else {
        BatchRaises(c, e, s, batch[1..]);
      }
    }
  }

  /** From a head on, the exception and the position of an iteration. */
  lemma IterateRaises(c: Config, e: Env, s: State)
    requires Clamped(c) && AtHead(c, e, s) && s.phase == Running
    ensures var d := Polled(c, e, s);
            var t := Iterate(c, e, s);
            (t.phase == Escaped <==> d.raised || RaisesIn(c, e, d.batch)) && d.state.position == t.position
  {
    var (p, t) := Received(e, s);
    match p
    case Quiet =>
    case Raise =>
      LeaveKeepsInv(c, e, t, Escaped);
    case _ =>
      DrainKeeps(c, e, t, ItemOf(p, s), s.processed);
      var d := Drain(c, e, t, ItemOf(p, s));
      AlignedBound(d.batch, s.processed, d.state.position);
      if d.raised {
        LeaveKeepsInv(c, e, d.state, Escaped);
      } else {
        BatchKeeps(c, e, d.state, d.batch);
        BatchRaises(c, e, d.state, d.batch);
      }
  }

  /** An iteration is ended by an exception exactly when a poll raises or a polled record within the message limit does;
      otherwise the loop returns exactly when the records polled so far reach the limit. */
  lemma IterationEnds(c: Config, e: Env, i: nat)
    requires Clamped(c) && Head(c, e, i).phase == Running
    ensures var d := Polled(c, e, Head(c, e, i));
            var t := Head(c, e, i + 1);
            && (t.phase == Escaped <==> d.raised || RaisesIn(c, e, d.batch))
            && (t.phase == Returned <==> t.phase != Escaped && 0 < c.maxMessages <= d.state.position)
  {
    HeadKeeps(c, e, i);
    HeadKeeps(c, e, i + 1);
    IterateRaises(c, e, Head(c, e, i));
    if Head(c, e, i + 1).phase != Escaped {
      LimitReached(c, e, Head(c, e, i + 1));
    }
  }

  lemma LimitReached(c: Config, e: Env, t: State)
    requires AtHead(c, e, t) && t.phase != Escaped
    ensures t.phase == Returned <==> 0 < c.maxMessages <= t.position
  {
  }
}
