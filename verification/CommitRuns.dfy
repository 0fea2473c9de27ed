/**
 What holds of whole runs of the commit loop: when every commit is safe, how far commits lag, and that every record
 is settled once, in order; with an explicit run for every configuration that is not safe.
 */
module CommitRuns {
  import opened Options
  import opened CommitLoop

  lemma {:induction false} TidyHeads(c: Config, e: Env, i: nat)
    requires Clamped(c) && DrainOff(c)
    ensures var s := Head(c, e, i);
            s.phase != Escaped ==> CommitSafe(c, e, s.history) && ExactCommits(s.history)
  {
    if i > 0 {
      TidyHeads(c, e, i - 1);
      HeadKeeps(c, e, i - 1);
      var s := Head(c, e, i - 1);
      if s.phase == Running {
        var (p, t) := Received(e, s);
        if p.Record? {
          RecordKeeps(c, e, t, s.position);
          assert HandleBatch(c, e, t, [Rec(s.position)]) == HandleRecord(c, e, t, s.position);
        } else if p.ErrorEvent? {
          assert HandleBatch(c, e, t, [Fault]) == t;
        }
      }
    }
  }

  /** Commit safety of every run that no exception has ended, for every configuration that either drains nothing or
      commits per message only. */
  lemma CommitSafety(c: Config, e: Env, i: nat)
    requires Clamped(c) && Head(c, e, i).phase != Escaped
    requires DrainOff(c) || CommitsPerMessage(c)
    ensures CommitSafe(c, e, Head(c, e, i).history)
  {
    HeadKeeps(c, e, i);
    if DrainOff(c) {
      TidyHeads(c, e, i);
    }
  }

  /** What `CommitSafe` says of one commit: every record below the stored offset was handled before it. */
  lemma {:induction false} CommitSafeAt(c: Config, e: Env, h: History, b: History, upTo: nat, at: nat, offset: nat)
    requires CommitSafe(c, e, h) && Precedes(Then(b, Committed(upTo), at), h) && offset < upTo
    ensures WasHandled(c, e, b, offset)
  {
    if h != Then(b, Committed(upTo), at) {
      CommitSafeAt(c, e, h.before, b, upTo, at, offset);
    }
  }

  /** What one iteration polls, before it handles anything. */
  function Polled(c: Config, e: Env, s: State): Drained {
    var (p, t) := Received(e, s);
    match p
    case Quiet => Drained([], t, false)
    case Raise => Drained([], t, true)
    case _ => Drain(c, e, t, ItemOf(p, s))
  }

  ghost predicate NoRecord(batch: seq<Item>) {
    forall k :: 0 <= k < |batch| ==> batch[k].Fault?
  }

  lemma {:induction false} AlignedNoRecord(batch: seq<Item>, handled: nat, position: nat)
    requires Aligned(batch, handled, position)
    ensures NoRecord(batch) <==> handled == position
  {
    if batch != [] {
      if batch[0].Fault? {
        AlignedNoRecord(batch[1..], handled, position);
        assert batch == [batch[0]] + batch[1..];
      } else {
        AlignedBound(batch[1..], handled + 1, position);
        assert !batch[0].Fault?;
      }
    }
  }

  /** With the drain off or in sync mode, an iteration that an exception ends is safe exactly when it polled no record,
      or, in batch mode, when nothing was pending as it began. */
  lemma EscapeExactly(c: Config, e: Env, i: nat)
    requires Clamped(c) && (DrainOff(c) || !c.batchMode)
    requires Head(c, e, i).phase == Running && Head(c, e, i + 1).phase == Escaped
    ensures var s := Head(c, e, i);
            CommitSafe(c, e, Head(c, e, i + 1).history) <==> NoRecord(Polled(c, e, s).batch) || (c.batchMode && s.pending == 0)
  {
    HeadKeeps(c, e, i);
    if DrainOff(c) {
      TidyHeads(c, e, i);
    }
    var s := Head(c, e, i);
    var (p, t) := Received(e, s);
    if p.Raise? {
      FinishKeeps(c, e, t, Escaped);
    } else if DrainOff(c) {
      LoneRecordEscapes(c, e, s);
    } else {
      DrainKeeps(c, e, t, ItemOf(p, s), s.processed);
      var d := Drain(c, e, t, ItemOf(p, s));
      AlignedBound(d.batch, s.processed, d.state.position);
      AlignedNoRecord(d.batch, s.processed, d.state.position);
      if d.raised {
        FinishKeeps(c, e, d.state, Escaped);
      } else {
        BatchKeeps(c, e, d.state, d.batch);
      }
    }
  }

  lemma LoneRecordEscapes(c: Config, e: Env, s: State)
    requires Clamped(c) && DrainOff(c) && AtHead(c, e, s) && CommitSafe(c, e, s.history) && s.phase == Running
    requires e.polls(s.polled) != Raise && Iterate(c, e, s).phase == Escaped
    ensures var t := Iterate(c, e, s);
            Polled(c, e, s).batch == [Rec(s.position)] && (CommitSafe(c, e, t.history) <==> c.batchMode && s.pending == 0)
  {
    var (p, t) := Received(e, s);
    assert HandleBatch(c, e, t, [Fault]) == t;
    if p.Record? {
      RecordKeeps(c, e, t, s.position);
      assert HandleBatch(c, e, t, [Rec(s.position)]) == HandleRecord(c, e, t, s.position);
    }
  }

  lemma {:induction false} ExactLag(h: History)
    requires ExactCommits(h)
    ensures Handled(h) == StoredOffset(h) + SinceCommit(h)
  {
    if h.Then? {
      ExactLag(h.before);
    }
  }

  lemma {:induction false} EarlierPoint(p: History, h: History, limit: int)
    requires Precedes(p, h)
    ensures ExactCommits(h) ==> ExactCommits(p)
    ensures LagWithin(h, limit) ==> LagWithin(p, limit)
  {
    if p != h {
      EarlierPoint(p, h.before, limit);
    }
  }

  /** Batch mode: at a loop head the counter is the number of records handled since the last commit and is below the
      batch size. With nothing drained that is also the lag of the stored offset. */
  lemma BatchBound(c: Config, e: Env, i: nat)
    requires Clamped(c) && c.batchMode
    ensures var s := Head(c, e, i);
            && s.pending == SinceCommit(s.history) < c.commitBatchSize
            && (DrainOff(c) && s.phase != Escaped ==>
                  Handled(s.history) - StoredOffset(s.history) == s.pending < c.commitBatchSize)
  {
    HeadKeeps(c, e, i);
    if DrainOff(c) && Head(c, e, i).phase != Escaped {
      TidyHeads(c, e, i);
      ExactLag(Head(c, e, i).history);
    }
  }

  /** Between two effects the counter can reach the batch size, and no more: at every earlier point of the run at most
      one batch is handled and uncommitted, and with nothing drained that is the lag of the stored offset. */
  lemma BatchBoundThroughout(c: Config, e: Env, i: nat, p: History)
    requires Clamped(c) && c.batchMode && Precedes(p, Head(c, e, i).history)
    ensures SinceCommit(p) <= c.commitBatchSize
    ensures DrainOff(c) && Head(c, e, i).phase != Escaped ==> 0 <= Handled(p) - StoredOffset(p) <= c.commitBatchSize
  {
    HeadKeeps(c, e, i);
    EarlierPoint(p, Head(c, e, i).history, c.commitBatchSize);
    if DrainOff(c) && Head(c, e, i).phase != Escaped {
      TidyHeads(c, e, i);
      ExactLag(p);
    }
  }

  lemma NothingPendingAfterReturn(c: Config, e: Env, i: nat)
    requires Clamped(c) && DrainOff(c) && Head(c, e, i).phase == Returned
    ensures var h := Head(c, e, i).history;
            StoredOffset(h) == Handled(h) == c.maxMessages
  {
    HeadKeeps(c, e, i);
    TidyHeads(c, e, i);
    ExactLag(Head(c, e, i).history);
  }

  ghost function TimesSettled(h: History, offset: nat): nat {
    match h
    case Start => 0
    case Then(b, x, _) => TimesSettled(b, offset) + if x.Settled? && x.record == offset then 1 else 0
  }

  lemma {:induction false} SettledOnce(e: Env, h: History, offset: nat)
    requires InOrder(e, h)
    ensures TimesSettled(h, offset) == if offset < Handled(h) then 1 else 0
  {
    if h.Then? {
      SettledOnce(e, h.before, offset);
    }
  }

  lemma {:induction false} OutcomesPartition(h: History)
    ensures Handled(h) == CountOf(h, Skipped) + CountOf(h, DeadLettered) + CountOf(h, Emitted)
  {
    if h.Then? {
      OutcomesPartition(h.before);
    }
  }

  /** Conservation and order: the handled records are a prefix of the polled ones, in order, once each, each with the
      outcome its verdict gives, and `processed` counts them and respects `max_messages`. */
  lemma Conservation(c: Config, e: Env, i: nat)
    requires Clamped(c)
    ensures var s := Head(c, e, i);
            && InOrder(e, s.history)
            && (forall offset: nat :: TimesSettled(s.history, offset) == if offset < s.processed then 1 else 0)
            && s.processed == CountOf(s.history, Skipped) + CountOf(s.history, DeadLettered) + CountOf(s.history, Emitted)
            && s.processed <= s.position
            && (s.phase == Running ==> s.processed == s.position)
            && (c.maxMessages > 0 ==> s.processed <= c.maxMessages)
  {
    HeadKeeps(c, e, i);
    var s := Head(c, e, i);
    OutcomesPartition(s.history);
    forall offset: nat ensures TimesSettled(s.history, offset) == if offset < s.processed then 1 else 0 {
      SettledOnce(e, s.history, offset);
    }
  }

  // ----- Every other configuration has an unsafe run -----

  lemma LeaveUnsafe(c: Config, e: Env, s: State, phase: Phase)
    ensures CommitSafe(c, e, Finish(c, e, s, phase).history) ==> CommitSafe(c, e, s.history)
    ensures CommitSafe(c, e, MaybeFlush(c, e, MaybeCommit(c, e, s, None, false, true), true).history) ==> CommitSafe(c, e, s.history)
  {
    var m := MaybeCommit(c, e, s, None, false, true);
    assert CommitSafe(c, e, m.history) ==> CommitSafe(c, e, s.history);
    assert CommitSafe(c, e, MaybeFlush(c, e, m, true).history) ==> CommitSafe(c, e, m.history);
  }

  lemma SettleUnsafe(c: Config, e: Env, s: State, offset: nat, outcome: Outcome)
    ensures CommitSafe(c, e, Settle(c, e, s, offset, outcome).history) ==> CommitSafe(c, e, s.history)
  {
    var m := MaybeCommit(c, e, Note(s, Settled(offset, outcome)), Some(offset), true, false);
    assert CommitSafe(c, e, m.history) ==> CommitSafe(c, e, Then(s.history, Settled(offset, outcome), s.ticks));
    var r := m.(processed := m.processed + 1);
    LeaveUnsafe(c, e, r, Returned);
    LeaveUnsafe(c, e, MaybeFlush(c, e, MaybeCommit(c, e, r, None, false, true), true), Returned);
  }

  lemma PublishUnsafe(c: Config, e: Env, s: State, offset: nat, topic: Sink)
    ensures CommitSafe(c, e, Publish(c, e, s, offset, topic).history) ==> CommitSafe(c, e, s.history)
  {
    assert CommitSafe(c, e, Then(s.history, Sent(offset, topic), s.ticks)) ==> CommitSafe(c, e, s.history);
  }

  lemma RecordUnsafe(c: Config, e: Env, s: State, offset: nat)
    ensures CommitSafe(c, e, HandleRecord(c, e, s, offset).history) ==> CommitSafe(c, e, s.history)
  {
    PublishUnsafe(c, e, s, offset, DeadLetter);
    var fails := e.log(offset).Emit? && e.log(offset).postgresFails;
    var d := if e.log(offset).Emit? then Insert(c, e, s, offset, fails) else Publish(c, e, s, offset, DeadLetter);
    assert CommitSafe(c, e, d.history) ==> CommitSafe(c, e, s.history);
    PublishUnsafe(c, e, d, offset, Output);
    var outcome := OutcomeOf(e.log(offset));
    SettleUnsafe(c, e, s, offset, outcome);
    SettleUnsafe(c, e, d, offset, outcome);
    SettleUnsafe(c, e, Publish(c, e, d, offset, Output), offset, outcome);
    LeaveUnsafe(c, e, s, Escaped);
    LeaveUnsafe(c, e, d, Escaped);
  }

  /** A commit that was unsafe stays unsafe. */
  lemma {:induction false} UnsafeStays(c: Config, e: Env, s: State, batch: seq<Item>)
    ensures CommitSafe(c, e, HandleBatch(c, e, s, batch).history) ==> CommitSafe(c, e, s.history)
    decreases |batch|
  {
    if s.phase == Running && batch != [] {
      if batch[0].Rec? {
        RecordUnsafe(c, e, s, batch[0].offset);
        UnsafeStays(c, e, HandleRecord(c, e, s, batch[0].offset), batch[1..]);
      } else {
        UnsafeStays(c, e, s, batch[1..]);
      }
    }
  }

  /** Two records drained together, and the commit interval over by the time the first is handled. */
  function SlowEnv(c: Config): Env {
    Env(k => Record, o => Skip, k => if k <= 3 then 0.0 else c.commitIntervalMs as real + c.drainMaxMs as real)
  }

  lemma UnsafeBatchRun(c: Config)
    requires Clamped(c) && c.batchMode && !DrainOff(c)
    ensures Head(c, SlowEnv(c), 1).phase != Escaped && !CommitSafe(c, SlowEnv(c), Head(c, SlowEnv(c), 1).history)
  {
    var e := SlowEnv(c);
    HeadKeeps(c, e, 1);
    assert NoEscape(c, e);
    var s0 := Init(e);
    assert Head(c, e, 1) == Iterate(c, e, Head(c, e, 0));
    var t := Received(e, s0).1;
    DrainKeeps(c, e, t, Rec(0), 0);
    var d := Drain(c, e, t, Rec(0));
    var u := t.(polled := 2, position := 2, ticks := 4);
    var deadline := c.drainMaxMs as real / 1000.0;
    assert d == DrainMore(c, e, t.(ticks := 3), [Rec(0)], deadline);
    assert [Rec(0)] + [Rec(1)] == [Rec(0), Rec(1)];
    assert d == DrainMore(c, e, u, [Rec(0), Rec(1)], deadline);
    assert d.batch == [Rec(0), Rec(1)] && d.state.position == 2 && d.state.ticks >= 4;
    var h := Then(Start, Settled(0, Skipped), d.state.ticks);
    var now := e.clock(d.state.ticks);
    assert ElapsedMs(now, 0.0) >= c.commitIntervalMs;
    var m := MaybeCommit(c, e, Note(d.state, Settled(0, Skipped)), Some(0), true, false);
    assert m.history == Then(h, Committed(2), d.state.ticks + 1);
    assert !WasHandled(c, e, h, 1);
    assert !CommitSafe(c, e, m.history);
    var r := m.(processed := 1);
    LeaveUnsafe(c, e, r, Returned);
    LeaveUnsafe(c, e, MaybeFlush(c, e, MaybeCommit(c, e, r, None, false, true), true), Returned);
    var w := HandleRecord(c, e, d.state, 0);
    assert !CommitSafe(c, e, w.history);
    UnsafeStays(c, e, w, [Rec(1)]);
    assert d.batch[1..] == [Rec(1)];
  }

  /** Single records until one is left to the limit, then two drained together. */
  function LimitEnv(limit: nat): Env
    requires limit > 0
  {
    Env(k => if k < 2 * (limit - 1) && k % 2 == 1 then Quiet else Record, o => Skip, k => 0.0)
  }

  /** With the clock standing still, the next poll decides whether the batch grows. */
  lemma DrainStep(c: Config, e: Env, s: State, first: Item)
    requires !DrainOff(c) && (forall k: nat :: e.clock(k) == 0.0)
    ensures e.polls(s.polled) == Quiet ==>
              Drain(c, e, s, first) == Drained([first], s.(polled := s.polled + 1, ticks := s.ticks + 2), false)
    ensures e.polls(s.polled) == Record ==>
              Drain(c, e, s, first) ==
              DrainMore(c, e, s.(polled := s.polled + 1, ticks := s.ticks + 2, position := s.position + 1),
                        [first, Rec(s.position)], c.drainMaxMs as real / 1000.0)
  {
    var deadline := c.drainMaxMs as real / 1000.0;
    assert e.clock(s.ticks) == 0.0 && e.clock(s.ticks + 1) == 0.0;
    assert Drain(c, e, s, first) == DrainMore(c, e, s.(ticks := s.ticks + 1), [first], deadline);
    assert [first] + [Rec(s.position)] == [first, Rec(s.position)];
  }

  lemma SettleScalars(c: Config, e: Env, s: State, offset: nat, outcome: Outcome)
    ensures var t := Settle(c, e, s, offset, outcome);
            && t.polled == s.polled && t.position == s.position
            && (t.phase == s.phase || (c.maxMessages > 0 && s.processed + 1 >= c.maxMessages))
  {
  }

  lemma LimitPolls(limit: nat, i: nat)
    requires i < limit
    ensures var e := LimitEnv(limit);
            e.polls(2 * i) == Record && e.polls(2 * i + 1) == (if i + 1 < limit then Quiet else Record)
  {
  }

  lemma {:induction false} SingleRecords(c: Config, i: nat)
    requires Clamped(c) && !c.batchMode && !DrainOff(c) && i < c.maxMessages
    ensures var s := Head(c, LimitEnv(c.maxMessages), i);
            s.phase == Running && s.polled == 2 * i && s.position == i
  {
    if i > 0 {
      SingleRecords(c, i - 1);
      var e := LimitEnv(c.maxMessages);
      HeadKeeps(c, e, i - 1);
      LimitPolls(c.maxMessages, i - 1);
      SingleRecord(c, e, Head(c, e, i - 1));
    }
  }

  lemma SingleRecord(c: Config, e: Env, s: State)
    requires !DrainOff(c) && (forall k: nat :: e.clock(k) == 0.0) && (forall k: nat :: e.log(k) == Skip)
    requires s.phase == Running && e.polls(s.polled) == Record && e.polls(s.polled + 1) == Quiet
    requires s.processed + 1 < c.maxMessages
    ensures var t := Iterate(c, e, s);
            t.phase == Running && t.polled == s.polled + 2 && t.position == s.position + 1
  {
    var t := Received(e, s).1;
    DrainStep(c, e, t, Rec(s.position));
    var d := Drain(c, e, t, Rec(s.position));
    SettleScalars(c, e, d.state, s.position, Skipped);
    assert HandleBatch(c, e, d.state, [Rec(s.position)]) == HandleRecord(c, e, d.state, s.position);
  }

  lemma UnsafeLimitRun(c: Config)
    requires Clamped(c) && !c.batchMode && !DrainOff(c) && c.maxMessages > 0
    ensures var s := Head(c, LimitEnv(c.maxMessages), c.maxMessages);
            s.phase != Escaped && !CommitSafe(c, LimitEnv(c.maxMessages), s.history)
  {
    var e := LimitEnv(c.maxMessages);
    HeadKeeps(c, e, c.maxMessages);
    assert NoEscape(c, e);
    var n := c.maxMessages - 1;
    SingleRecords(c, n);
    LimitPolls(c.maxMessages, n);
    HeadKeeps(c, e, n);
    UnsafeIteration(c, e, Head(c, e, n));
  }

  lemma UnsafeIteration(c: Config, e: Env, s: State)
    requires Clamped(c) && AtHead(c, e, s) && s.phase == Running && !c.batchMode && !DrainOff(c)
    requires (forall k: nat :: e.clock(k) == 0.0) && (forall k: nat :: e.log(k) == Skip) && (forall k: nat :: e.polls(k) != Raise)
    requires e.polls(s.polled) == Record && e.polls(s.polled + 1) == Record && s.processed + 1 == c.maxMessages
    ensures !CommitSafe(c, e, Iterate(c, e, s).history)
  {
    var n := s.position;
    var t := Received(e, s).1;
    DrainStep(c, e, t, Rec(n));
    var d := Drain(c, e, t, Rec(n));
    assert Aligned([Rec(n)], n, n + 1);
    AlignedSnoc([Rec(n)], n, n + 1, Rec(n + 1));
    assert [Rec(n)] + [Rec(n + 1)] == [Rec(n), Rec(n + 1)];
    DrainMoreKeeps(c, e, t.(polled := t.polled + 1, ticks := t.ticks + 2, position := n + 2),
                   [Rec(n), Rec(n + 1)], c.drainMaxMs as real / 1000.0, n);
    DrainMoreFrom(c, e, t.(polled := t.polled + 1, ticks := t.ticks + 2, position := n + 2),
                  [Rec(n), Rec(n + 1)], c.drainMaxMs as real / 1000.0);
    UnsafeReturn(c, e, d.state, n);
    UnsafeStays(c, e, HandleRecord(c, e, d.state, n), d.batch[1..]);
  }

  lemma UnsafeReturn(c: Config, e: Env, s: State, offset: nat)
    requires Clamped(c) && Inv(c, e, s) && s.phase == Running && !c.batchMode
    requires offset == s.processed && e.log(offset) == Skip
    requires offset + 1 == c.maxMessages < s.position
    ensures !CommitSafe(c, e, HandleRecord(c, e, s, offset).history)
  {
    CommitRecordKeeps(c, e, s, offset, Skipped);
    var m := MaybeCommit(c, e, Note(s, Settled(offset, Skipped)), Some(offset), true, false);
    var r := m.(processed := m.processed + 1, phase := Returned);
    var f := MaybeCommit(c, e, r, None, false, true);
    if CommitSafe(c, e, r.history) {
      ForceKeeps(c, e, r);
    }
    assert !CommitSafe(c, e, f.history);
    var g := MaybeFlush(c, e, f, true);
    assert !CommitSafe(c, e, g.history);
    LeaveUnsafe(c, e, g, Returned);
    var q := m.(processed := m.processed + 1);
    assert MaybeFlush(c, e, MaybeCommit(c, e, q, None, false, true), true) == g.(phase := Running);
    LeaveUnsafe(c, e, g.(phase := Running), Returned);
  }

  /** Every run that no exception has ended is commit-safe, exactly for the configurations that drain nothing or commit
      per message only. */
  lemma CommitSafetyExactly(c: Config)
    requires Clamped(c)
    ensures (forall e: Env, i: nat :: Head(c, e, i).phase != Escaped ==> CommitSafe(c, e, Head(c, e, i).history))
            <==> DrainOff(c) || CommitsPerMessage(c)
  {
    if DrainOff(c) || CommitsPerMessage(c) {
      forall e: Env, i: nat | Head(c, e, i).phase != Escaped ensures CommitSafe(c, e, Head(c, e, i).history) {
        CommitSafety(c, e, i);
      }
    } else if c.batchMode {
      UnsafeBatchRun(c);
    } else {
      UnsafeLimitRun(c);
    }
  }

  // ----- All runs, exceptions included -----

  /** Something the environment can do makes the handling of a record raise. */
  predicate CanEscape(c: Config) {
    c.outputKafka || Writes(c)
  }

  /** No commit is ever pending at the head of an iteration. */
  predicate CommitsAtOnce(c: Config) {
    c.batchMode && (c.commitBatchSize == 1 || c.maxMessages == 1)
  }

  const POISON := Emit(true, false, false)

  /** A record whose handling raises. */
  function PoisonEnv(): Env {
    Env(k => Record, o => POISON, k => 0.0)
  }

  lemma UnsafeEscapeInSync(c: Config)
    requires Clamped(c) && DrainOff(c) && CanEscape(c) && !c.batchMode
    ensures !CommitSafe(c, PoisonEnv(), Head(c, PoisonEnv(), 1).history)
  {
    var e := PoisonEnv();
    HeadKeeps(c, e, 0);
    PoisonedHead(c, e, 0);
  }

  /** A record whose handling raises, polled alone at a head with something to commit. */
  lemma PoisonedHead(c: Config, e: Env, i: nat)
    requires Clamped(c) && DrainOff(c) && CanEscape(c)
    requires var s := Head(c, e, i);
             && s.phase == Running && e.polls(s.polled) == Record && e.log(s.position) == POISON
             && (c.batchMode ==> s.pending > 0)
    ensures !CommitSafe(c, e, Head(c, e, i + 1).history)
  {
    HeadKeeps(c, e, i);
    TidyHeads(c, e, i);
    var s := Head(c, e, i);
    var t := Received(e, s).1;
    RecordKeeps(c, e, t, s.position);
    assert HandleBatch(c, e, t, [Rec(s.position)]) == HandleRecord(c, e, t, s.position);
  }

  /** A record is skipped and left pending, then one whose handling raises. */
  function LatePoisonEnv(): Env {
    Env(k => Record, o => if o == 0 then Skip else POISON, k => 0.0)
  }

  lemma UnsafeEscapeInBatch(c: Config)
    requires Clamped(c) && DrainOff(c) && CanEscape(c) && c.batchMode && !CommitsAtOnce(c)
    ensures !CommitSafe(c, LatePoisonEnv(), Head(c, LatePoisonEnv(), 2).history)
  {
    var e := LatePoisonEnv();
    var t := Received(e, Init(e)).1;
    assert HandleBatch(c, e, t, [Rec(0)]) == HandleRecord(c, e, t, 0);
    assert Head(c, e, 1) == Iterate(c, e, Head(c, e, 0));
    PoisonedHead(c, e, 1);
  }

  /** One record, and then a poll that raises. */
  function CutShortEnv(): Env {
    Env(k => if k == 0 then Record else Raise, o => Skip, k => 0.0)
  }

  lemma UnsafeEscapeInDrain(c: Config)
    requires Clamped(c) && !DrainOff(c) && !c.batchMode
    ensures !CommitSafe(c, CutShortEnv(), Head(c, CutShortEnv(), 1).history)
  {
    var e := CutShortEnv();
    assert Head(c, e, 1) == Iterate(c, e, Head(c, e, 0));
    var t := Received(e, Init(e)).1;
    var deadline := c.drainMaxMs as real / 1000.0;
    assert Drain(c, e, t, Rec(0)) == DrainMore(c, e, t.(ticks := t.ticks + 1), [Rec(0)], deadline);
    var d := Drain(c, e, t, Rec(0));
    assert d.raised && d.state.position == 1 && d.state.history == Start;
    assert !WasHandled(c, e, Start, 0);
    LeaveUnsafe(c, e, d.state, Escaped);
    assert !CommitSafe(c, e, Then(Start, Committed(1), d.state.ticks));
  }

  lemma {:induction false} SafeHeads(c: Config, e: Env, i: nat)
    requires Clamped(c) && DrainOff(c) && (!CanEscape(c) || CommitsAtOnce(c))
    ensures CommitSafe(c, e, Head(c, e, i).history)
  {
    var s := Head(c, e, i);
    if s.phase != Escaped {
      CommitSafety(c, e, i);
    } else {
      SafeHeads(c, e, i - 1);
      HeadKeeps(c, e, i - 1);
      if Head(c, e, i - 1).phase == Running {
        SafeEscape(c, e, i - 1);
      }
    }
  }

  lemma SafeEscape(c: Config, e: Env, i: nat)
    requires Clamped(c) && DrainOff(c) && (!CanEscape(c) || CommitsAtOnce(c))
    requires Head(c, e, i).phase == Running && Head(c, e, i + 1).phase == Escaped
    ensures CommitSafe(c, e, Head(c, e, i + 1).history)
  {
    EscapeExactly(c, e, i);
    HeadKeeps(c, e, i);
    var s := Head(c, e, i);
    var t := Received(e, s).1;
    assert HandleBatch(c, e, t, [Rec(s.position)]) == HandleRecord(c, e, t, s.position);
    if CommitsAtOnce(c) {
      NothingSettled(s.history);
    } else if e.polls(s.polled) == Record {
      RecordKeeps(c, e, t, s.position);
    }
  }

  lemma {:induction false} NothingSettled(h: History)
    ensures SinceCommit(h) <= Handled(h)
  {
    if h.Then? {
      NothingSettled(h.before);
    }
  }

  /** Every run, ended by an exception or not, is commit-safe exactly for the configurations that drain nothing and
      either have no handling that can raise or commit every record before the next is polled, in batch mode. */
  lemma AllRunsSafeExactly(c: Config)
    requires Clamped(c)
    ensures (forall e: Env, i: nat :: CommitSafe(c, e, Head(c, e, i).history))
            <==> DrainOff(c) && (!CanEscape(c) || CommitsAtOnce(c))
  {
    if DrainOff(c) && (!CanEscape(c) || CommitsAtOnce(c)) {
      forall e: Env, i: nat ensures CommitSafe(c, e, Head(c, e, i).history) {
        SafeHeads(c, e, i);
      }
    } else if !DrainOff(c) {
      if c.batchMode {
        UnsafeBatchRun(c);
      } else {
        UnsafeEscapeInDrain(c);
      }
    } else if c.batchMode {
      UnsafeEscapeInBatch(c);
    } else {
      UnsafeEscapeInSync(c);
    }
  }
}
