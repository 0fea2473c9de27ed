/** Where the records handled by the commit loop went: which of them went anywhere, and that each went once. */
module CommitDelivery {
  import opened Options
  import opened CommitLoop
  import opened CommitRuns

  // ----- Which handled records went anywhere -----

  ghost predicate Reached(h: History, offset: nat) {
    exists sink: Sink :: WasSent(h, offset, sink)
  }

  /** The configuration and the verdict leave the record somewhere to go. */
  predicate HasSink(c: Config, v: Verdict) {
    (c.outputKafka && !v.Skip?) || (v.Emit? && Writes(c) && !v.postgresFails)
  }

  lemma SinksOwed(c: Config, v: Verdict)
    ensures HasSink(c, v) <==> exists sink: Sink :: Owes(c, v, sink)
  {
    if HasSink(c, v) {
      assert Owes(c, v, Output) || Owes(c, v, DeadLetter) || Owes(c, v, Table);
    }
  }

  lemma {:induction false} HandledWasSent(c: Config, e: Env, h: History, offset: nat)
    requires WasHandled(c, e, h, offset)
    ensures HasSink(c, e.log(offset)) ==> Reached(h, offset)
  {
    SinksOwed(c, e.log(offset));
    if !WasHandled(c, e, h.before, offset) {
      assert Delivered(c, h.before, offset, e.log(offset));
      assert HasSink(c, e.log(offset)) ==> Reached(h.before, offset);
    } else {
      HandledWasSent(c, e, h.before, offset);
    }
    ReachedGrows(h, offset);
  }

  lemma ReachedGrows(h: History, offset: nat)
    ensures h.Then? && Reached(h.before, offset) ==> Reached(h, offset)
  {
    if h.Then? && Reached(h.before, offset) {
      var sink: Sink :| WasSent(h.before, offset, sink);
      assert WasSent(h, offset, sink);
    }
  }

  lemma {:induction false} SentWasOwed(c: Config, e: Env, h: History, offset: nat, sink: Sink)
    requires OnlyOwed(c, e, h) && WasSent(h, offset, sink)
    ensures Owes(c, e.log(offset), sink)
  {
    if h.effect != Sent(offset, sink) {
      SentWasOwed(c, e, h.before, offset, sink);
    }
  }

  lemma NeverReached(c: Config, e: Env, h: History, offset: nat)
    requires OnlyOwed(c, e, h) && !HasSink(c, e.log(offset))
    ensures !Reached(h, offset)
  {
    SinksOwed(c, e.log(offset));
    if Reached(h, offset) {
      var sink: Sink :| WasSent(h, offset, sink);
      SentWasOwed(c, e, h, offset, sink);
    }
  }

  /** On every run a handled record went to a topic or the table exactly when its verdict left it somewhere to go. */
  lemma ReachedExactly(c: Config, e: Env, i: nat, offset: nat)
    requires Clamped(c) && offset < Head(c, e, i).processed
    ensures Reached(Head(c, e, i).history, offset) <==> HasSink(c, e.log(offset))
  {
    HeadKeeps(c, e, i);
    var h := Head(c, e, i).history;
    assert WasHandled(c, e, h, offset);
    HandledWasSent(c, e, h, offset);
    if !HasSink(c, e.log(offset)) {
      NeverReached(c, e, h, offset);
    }
  }

  ghost predicate ReachedBelow(e: Env, h: History, n: nat) {
    forall offset: nat :: offset < n ==> e.log(offset).Skip? || Reached(h, offset)
  }

  /** At every commit, every record below the stored offset had been skipped or had gone to some sink. */
  ghost predicate NothingLost(e: Env, h: History) {
    match h
    case Start => true
    case Then(b, x, _) => (x.Committed? ==> ReachedBelow(e, b, x.upTo)) && NothingLost(e, b)
  }

  lemma {:induction false} SafeLosesNothing(c: Config, e: Env, h: History)
    requires CommitSafe(c, e, h) && c.outputKafka
    ensures NothingLost(e, h)
  {
    if h.Then? {
      SafeLosesNothing(c, e, h.before);
      if h.effect.Committed? {
        forall offset: nat | offset < h.effect.upTo && !e.log(offset).Skip? ensures Reached(h.before, offset) {
          assert WasHandled(c, e, h.before, offset);
          HandledWasSent(c, e, h.before, offset);
        }
      }
    }
  }

  ghost predicate CommittedFirst(h: History) {
    h.Then? && ((h.effect.Committed? && h.effect.upTo > 0) || CommittedFirst(h.before))
  }

  lemma {:induction false} LostIfCommitted(c: Config, e: Env, h: History)
    requires OnlyOwed(c, e, h) && CommittedFirst(h) && !e.log(0).Skip? && !HasSink(c, e.log(0))
    ensures !NothingLost(e, h)
  {
    NeverReached(c, e, h.before, 0);
    if !(h.effect.Committed? && h.effect.upTo > 0) {
      LostIfCommitted(c, e, h.before);
    }
  }

  /** One record, then quiet; in batch mode the commit interval is over when it is handled. */
  function LoneEnv(c: Config, v: Verdict): Env {
    Env(k => if k == 0 then Record else Quiet, o => v, k => if k <= 1 || !c.batchMode then 0.0 else c.commitIntervalMs as real)
  }

  /** The record is neither skipped nor given anywhere to go, and nothing raises. */
  predicate Drops(c: Config, v: Verdict) {
    !v.Skip? && !HasSink(c, v) && !Escapes(c, v)
  }

  lemma LoneBatch(c: Config, e: Env, s: State)
    requires (DrainOff(c) || forall k: nat :: e.clock(k) == 0.0) && e.polls(s.polled) == Quiet
    ensures var d := Drain(c, e, s, Rec(0));
            d.batch == [Rec(0)] && !d.raised && d.state == s.(polled := d.state.polled, ticks := d.state.ticks)
            && (DrainOff(c) ==> d.state == s)
  {
    if !DrainOff(c) {
      DrainStep(c, e, s, Rec(0));
    }
  }

  /** A dropped record is committed all the same. */
  lemma DroppedRun(c: Config, v: Verdict)
    requires Clamped(c) && (DrainOff(c) || CommitsPerMessage(c)) && Drops(c, v)
    ensures var e := LoneEnv(c, v);
            Head(c, e, 1).phase != Escaped && !NothingLost(e, Head(c, e, 1).history)
  {
    var e := LoneEnv(c, v);
    HeadKeeps(c, e, 1);
    assert Head(c, e, 1) == Iterate(c, e, Head(c, e, 0));
    assert NoEscape(c, e);
    var t := Received(e, Init(e)).1;
    LoneBatch(c, e, t);
    var d := Drain(c, e, t, Rec(0));
    assert HandleBatch(c, e, d.state, [Rec(0)]) == HandleRecord(c, e, d.state, 0);
    DroppedRecord(c, e, d.state, v);
    LostIfCommitted(c, e, Head(c, e, 1).history);
  }

  lemma DroppedRecord(c: Config, e: Env, s: State, v: Verdict)
    requires Clamped(c) && Drops(c, v) && e.log(0) == v && s.position == 1
    requires c.batchMode ==> ElapsedMs(e.clock(s.ticks), s.lastCommitAt) >= c.commitIntervalMs
    ensures CommittedFirst(HandleRecord(c, e, s, 0).history)
  {
    var outcome := OutcomeOf(v);
    assert HandleRecord(c, e, s, 0) == Settle(c, e, s, 0, outcome);
    var m := MaybeCommit(c, e, Note(s, Settled(0, outcome)), Some(0), true, false);
    assert m.history.before == Then(s.history, Settled(0, outcome), s.ticks) && m.history.effect == Committed(1);
    var q := m.(processed := m.processed + 1);
    FinishCommits(c, e, q, Returned);
    FinishCommits(c, e, MaybeFlush(c, e, MaybeCommit(c, e, q, None, false, true), true), Returned);
  }

  lemma FinishCommits(c: Config, e: Env, s: State, phase: Phase)
    requires CommittedFirst(s.history)
    ensures CommittedFirst(MaybeFlush(c, e, MaybeCommit(c, e, s, None, false, true), true).history)
    ensures CommittedFirst(Finish(c, e, s, phase).history)
  {
    var m := MaybeCommit(c, e, s, None, false, true);
    assert CommittedFirst(m.history);
  }

  /** Over the runs no exception has ended, in the configurations where those are commit-safe, every committed record
      was skipped or went to some sink exactly when there is Kafka output; without it a rejected record, and an event
      whose insert failed, is committed and gone. */
  lemma NothingLostExactly(c: Config)
    requires Clamped(c) && (DrainOff(c) || CommitsPerMessage(c))
    ensures (forall e: Env, i: nat :: Head(c, e, i).phase != Escaped ==> NothingLost(e, Head(c, e, i).history)) <==> c.outputKafka
  {
    if c.outputKafka {
      forall e: Env, i: nat | Head(c, e, i).phase != Escaped ensures NothingLost(e, Head(c, e, i).history) {
        CommitSafety(c, e, i);
        SafeLosesNothing(c, e, Head(c, e, i).history);
      }
    } else {
      DroppedRun(c, Emit(true, true, true));
    }
  }

  // ----- Everything owed is sent once -----

  ghost function TimesSent(h: History, offset: nat, sink: Sink): nat {
    match h
    case Start => 0
    case Then(b, x, _) => TimesSent(b, offset, sink) + if x == Sent(offset, sink) then 1 else 0
  }

  lemma {:induction false} SentIsCounted(h: History, offset: nat, sink: Sink)
    ensures WasSent(h, offset, sink) <==> TimesSent(h, offset, sink) > 0
  {
    if h.Then? {
      SentIsCounted(h.before, offset, sink);
    }
  }

  /** Nothing was sent twice, and nothing yet for the records from `next` on. */
  ghost predicate SentOnce(h: History, next: nat) {
    forall offset: nat, sink: Sink :: TimesSent(h, offset, sink) <= if offset < next then 1 else 0
  }

  ghost predicate NeverTwice(h: History) {
    forall offset: nat, sink: Sink :: TimesSent(h, offset, sink) <= 1
  }

  /** Nothing but flushes and commits in between. */
  ghost predicate SameSends(s: State, t: State) {
    forall offset: nat, sink: Sink :: TimesSent(t.history, offset, sink) == TimesSent(s.history, offset, sink)
  }

  lemma FlushSends(c: Config, e: Env, s: State, force: bool)
    ensures SameSends(s, MaybeFlush(c, e, s, force))
  {
  }

  lemma CommitSends(c: Config, e: Env, s: State, message: Option<nat>, processed: bool, force: bool)
    ensures SameSends(s, MaybeCommit(c, e, s, message, processed, force))
  {
  }

  lemma FinishSends(c: Config, e: Env, s: State, phase: Phase)
    ensures SameSends(s, MaybeFlush(c, e, MaybeCommit(c, e, s, None, false, true), true))
    ensures SameSends(s, Finish(c, e, s, phase))
  {
    CommitSends(c, e, s, None, false, true);
    FlushSends(c, e, MaybeCommit(c, e, s, None, false, true), true);
  }

  lemma SettleSends(c: Config, e: Env, s: State, offset: nat, outcome: Outcome)
    ensures SameSends(s, Settle(c, e, s, offset, outcome))
  {
    var n := Note(s, Settled(offset, outcome));
    assert SameSends(s, n);
    CommitSends(c, e, n, Some(offset), true, false);
    var m := MaybeCommit(c, e, n, Some(offset), true, false);
    var q := m.(processed := m.processed + 1);
    FinishSends(c, e, q, Returned);
    FinishSends(c, e, MaybeFlush(c, e, MaybeCommit(c, e, q, None, false, true), true), Returned);
  }

  /** A publish adds one send. */
  lemma PublishSends(c: Config, e: Env, s: State, offset: nat, topic: Sink)
    ensures forall o: nat, sink: Sink ::
              TimesSent(Publish(c, e, s, offset, topic).history, o, sink)
              == TimesSent(s.history, o, sink) + if o == offset && sink == topic then 1 else 0
  {
    FlushSends(c, e, Note(s, Sent(offset, topic)), false);
  }

  lemma RecordSends(c: Config, e: Env, s: State, offset: nat)
    requires SentOnce(s.history, offset)
    ensures SentOnce(HandleRecord(c, e, s, offset).history, offset + 1)
  {
    match e.log(offset)
    case Skip => SettleSends(c, e, s, offset, Skipped);
    case Reject =>
      PublishSends(c, e, s, offset, DeadLetter);
      SettleSends(c, e, if c.outputKafka then Publish(c, e, s, offset, DeadLetter) else s, offset, DeadLettered);
    case Emit(fails, _, _) =>
      PublishSends(c, e, s, offset, DeadLetter);
      var w := Insert(c, e, s, offset, fails);
      PublishSends(c, e, w, offset, Output);
      FinishSends(c, e, s, Escaped);
      FinishSends(c, e, w, Escaped);
      SettleSends(c, e, if c.outputKafka then Publish(c, e, w, offset, Output) else w, offset, Emitted);
  }

  lemma {:induction false} BatchSends(c: Config, e: Env, s: State, batch: seq<Item>, next: nat)
    requires Aligned(batch, next, s.position) && SentOnce(s.history, next)
    requires s.phase == Running ==> Clamped(c) && Inv(c, e, s) && s.processed == next
    ensures NeverTwice(HandleBatch(c, e, s, batch).history)
    ensures var t := HandleBatch(c, e, s, batch); t.phase == Running ==> SentOnce(t.history, s.position)
    decreases |batch|
  {
    if s.phase == Running && batch != [] {
      if batch[0].Rec? {
        AlignedBound(batch[1..], next + 1, s.position);
        RecordKeeps(c, e, s, next);
        RecordSends(c, e, s, next);
        BatchSends(c, e, HandleRecord(c, e, s, next), batch[1..], next + 1);
      } else {
        BatchSends(c, e, s, batch[1..], next);
      }
    } else if s.phase == Running {
      assert next == s.position;
    }
  }

  ghost predicate SendsKept(s: State) {
    NeverTwice(s.history) && (s.phase == Running ==> SentOnce(s.history, s.position))
  }

  lemma IterateSends(c: Config, e: Env, s: State)
    requires Clamped(c) && AtHead(c, e, s) && s.phase == Running && SendsKept(s)
    ensures SendsKept(Iterate(c, e, s))
  {
    var (p, t) := Received(e, s);
    if p.Raise? {
      FinishSends(c, e, t, Escaped);
    } else if !p.Quiet? {
      DrainKeeps(c, e, t, ItemOf(p, s), s.processed);
      var d := Drain(c, e, t, ItemOf(p, s));
      AlignedBound(d.batch, s.processed, d.state.position);
      if d.raised {
        FinishSends(c, e, d.state, Escaped);
      } else {
        BatchSends(c, e, d.state, d.batch, s.processed);
        BatchKeeps(c, e, d.state, d.batch);
      }
    }
  }

  lemma {:induction false} HeadSends(c: Config, e: Env, i: nat)
    requires Clamped(c)
    ensures SendsKept(Head(c, e, i))
  {
    if i > 0 {
      HeadSends(c, e, i - 1);
      HeadKeeps(c, e, i - 1);
      if Head(c, e, i - 1).phase == Running {
        IterateSends(c, e, Head(c, e, i - 1));
      }
    }
  }

  /** An event belongs in the output topic, and in the table if inserts are made and this one succeeds; a rejected record
      and an event whose insert failed belong in the dead-letter topic. */
  predicate BelongsIn(c: Config, v: Verdict, sink: Sink) {
    || (sink == Output && c.outputKafka && v.Emit?)
    || (sink == Table && c.writePostgres && !c.dryRun && v.Emit? && !v.postgresFails)
    || (sink == DeadLetter && c.outputKafka && (v.Reject? || (v.Emit? && c.writePostgres && !c.dryRun && v.postgresFails)))
  }

  /** On every run, each handled record was sent exactly once to each sink it was owed, and to no other. */
  lemma SentExactlyOnce(c: Config, e: Env, i: nat, offset: nat, sink: Sink)
    requires Clamped(c) && offset < Head(c, e, i).processed
    ensures TimesSent(Head(c, e, i).history, offset, sink) == if BelongsIn(c, e.log(offset), sink) then 1 else 0
  {
    HeadKeeps(c, e, i);
    HeadSends(c, e, i);
    var h := Head(c, e, i).history;
    SentIsCounted(h, offset, sink);
    assert WasHandled(c, e, h, offset);
    HandledWasOwed(c, e, h, offset, sink);
    if WasSent(h, offset, sink) {
      SentWasOwed(c, e, h, offset, sink);
    }
  }

  lemma {:induction false} HandledWasOwed(c: Config, e: Env, h: History, offset: nat, sink: Sink)
    requires WasHandled(c, e, h, offset)
    ensures Owes(c, e.log(offset), sink) ==> WasSent(h, offset, sink)
  {
    if WasHandled(c, e, h.before, offset) {
      HandledWasOwed(c, e, h.before, offset, sink);
    }
  }
}
