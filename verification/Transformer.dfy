/**
 The feature transformer as the object it is: counters and timestamps updated step by step around a
 consumer, a producer and a clock. Every method is proved against the function of the same name in
 `CommitLoop`, so what is proved there and in `CommitRuns` of every loop head holds of this code.
 */
module Transformer {
  import opened Options
  import opened CommitLoop
  import opened CommitRuns

  class FeatureTransformer {
    const cfg: Config
    const env: Env

    // the consumer and the clock
    var polled: nat
    var position: nat
    var ticks: nat

    var pendingCommits: nat
    var lastCommitAt: real
    var lastProducerFlushAt: real
    var processed: nat
    var phase: Phase
    ghost var history: History

    ghost function View(): State
      reads this
    {
      State(phase, polled, ticks, position, pendingCommits, lastCommitAt, lastProducerFlushAt, processed, history)
    }

    constructor (cfg: Config, env: Env)
      ensures this.cfg == cfg && this.env == env && View() == Init(env)
    {
      this.cfg, this.env := cfg, env;
      polled, position, ticks := 0, 0, 2;
      pendingCommits, lastCommitAt, lastProducerFlushAt := 0, env.clock(0), env.clock(1);
      processed, phase, history := 0, Running, Start;
    }

    method Monotonic() returns (now: real)
      modifies this
      ensures now == env.clock(old(ticks))
      ensures View() == old(View()).(ticks := old(ticks) + 1)
    {
      now := env.clock(ticks);
      ticks := ticks + 1;
    }

    method Poll() returns (p: Poll)
      modifies this
      ensures (p, View()) == Received(env, old(View()))
    {
      p := env.polls(polled);
      polled := polled + 1;
      if p.Record? {
        position := position + 1;
      }
    }

    method MaybeCommit(message: Option<nat>, handled: bool, force: bool)
      modifies this
      ensures View() == CommitLoop.MaybeCommit(cfg, env, old(View()), message, handled, force)
    {
      if !cfg.batchMode {
        if handled && message.Some? {
          history := Then(history, Committed(message.value + 1), ticks);
        } else if force {
          history := Then(history, Committed(position), ticks);
        }
        return;
      }
      if handled {
        pendingCommits := pendingCommits + 1;
      }
      if force && pendingCommits == 0 {
        return;
      }
      var now := Monotonic();
      if force || pendingCommits >= cfg.commitBatchSize || ElapsedMs(now, lastCommitAt) >= cfg.commitIntervalMs {
        history := Then(history, Committed(position), ticks);
        pendingCommits := 0;
        lastCommitAt := now;
      }
    }

    method MaybeFlushProducer(force: bool)
      modifies this
      ensures View() == MaybeFlush(cfg, env, old(View()), force)
    {
      if cfg.producerSyncFlush {
        history := Then(history, Flushed, ticks);
        return;
      }
      var now := Monotonic();
      if force || ElapsedMs(now, lastProducerFlushAt) >= cfg.producerFlushIntervalMs {
        history := Then(history, Flushed, ticks);
        lastProducerFlushAt := now;
      }
    }

    method Produce(offset: nat, topic: Sink)
      modifies this
      ensures View() == Publish(cfg, env, old(View()), offset, topic)
    {
      history := Then(history, Sent(offset, topic), ticks);
      MaybeFlushProducer(false);
    }

    method Close(left: Phase)
      modifies this
      ensures View() == Finish(cfg, env, old(View()), left)
    {
      MaybeCommit(None, false, true);
      MaybeFlushProducer(true);
      phase := left;
    }

    method SettleMessage(offset: nat, outcome: Outcome)
      modifies this
      ensures View() == Settle(cfg, env, old(View()), offset, outcome)
    {
      history := Then(history, Settled(offset, outcome), ticks);
      MaybeCommit(Some(offset), true, false);
      processed := processed + 1;
      if cfg.maxMessages > 0 && processed >= cfg.maxMessages {
        MaybeCommit(None, false, true);
        MaybeFlushProducer(true);
        Close(Returned);
      }
    }

    method HandleMessage(offset: nat)
      modifies this
      ensures View() == HandleRecord(cfg, env, old(View()), offset)
    {
      match env.log(offset)
      case Skip =>
        SettleMessage(offset, Skipped);
      case Reject =>
        if cfg.outputKafka {
          Produce(offset, DeadLetter);
        }
        SettleMessage(offset, DeadLettered);
      case Emit(postgresFails, serialises, encodes) =>
        if Writes(cfg) {
          if !postgresFails {
            history := Then(history, Sent(offset, Table), ticks);
          } else if !serialises {
            Close(Escaped);
            return;
          } else if cfg.outputKafka {
            Produce(offset, DeadLetter);
          }
        }
        if cfg.outputKafka {
          if !encodes {
            Close(Escaped);
            return;
          }
          Produce(offset, Output);
        }
        SettleMessage(offset, Emitted);
    }

    method DrainBatch(first: Item) returns (batch: seq<Item>, raised: bool)
      modifies this
      ensures Drained(batch, View(), raised) == Drain(cfg, env, old(View()), first)
    {
      batch, raised := [first], false;
      if cfg.drainMaxMessages <= 1 || cfg.drainMaxMs <= 0 {
        return;
      }
      var start := Monotonic();
      var deadline := start + cfg.drainMaxMs as real / 1000.0;
      while |batch| < cfg.drainMaxMessages
        invariant !raised
        invariant DrainMore(cfg, env, View(), batch, deadline) == Drain(cfg, env, old(View()), first)
      {
        var now := Monotonic();
        if deadline - now <= 0.0 {
          return;
        }
        var p := Poll();
        match p
        case Quiet => return;
        case Raise => raised := true; return;
        case Record => batch := batch + [Rec(position - 1)];
        case ErrorEvent => batch := batch + [Fault];
      }
    }

    /** The `for` loop over a drained batch. */
    method HandleMessages(batch: seq<Item>)
      modifies this
      ensures View() == HandleBatch(cfg, env, old(View()), batch)
    {
      var k := 0;
      while k < |batch| && phase == Running
        invariant k <= |batch|
        invariant HandleBatch(cfg, env, View(), batch[k..]) == HandleBatch(cfg, env, old(View()), batch)
      {
        if batch[k].Rec? {
          HandleMessage(batch[k].offset);
        }
        k := k + 1;
      }
    }

    /** The loop, watched for its first `lifetime` iterations. */
    method Run(lifetime: nat)
      requires View() == Init(env)
      modifies this
      ensures View() == Head(cfg, env, lifetime)
      ensures Clamped(cfg) ==> processed <= position && (cfg.maxMessages > 0 ==> processed <= cfg.maxMessages)
      ensures Clamped(cfg) && phase != Escaped && (DrainOff(cfg) || CommitsPerMessage(cfg)) ==> CommitSafe(cfg, env, history)
      ensures Clamped(cfg) && DrainOff(cfg) && (!CanEscape(cfg) || CommitsAtOnce(cfg)) ==> CommitSafe(cfg, env, history)
      ensures Clamped(cfg) && cfg.batchMode ==> pendingCommits == SinceCommit(history) < cfg.commitBatchSize
    {
      var i := 0;
      while i < lifetime && phase == Running
        invariant i <= lifetime && View() == Head(cfg, env, i)
      {
        ghost var head := View();
        var p := Poll();
        if p.Raise? {
          Close(Escaped);
        } else if !p.Quiet? {
          var batch, raised := DrainBatch(if p.Record? then Rec(position - 1) else Fault);
          if raised {
            Close(Escaped);
          } else {
            HandleMessages(batch);
          }
        }
        i := i + 1;
      }
      HeadStays(cfg, env, i, lifetime);
      if Clamped(cfg) {
        HeadKeeps(cfg, env, lifetime);
        if phase != Escaped && (DrainOff(cfg) || CommitsPerMessage(cfg)) {
          CommitSafety(cfg, env, lifetime);
        }
        if DrainOff(cfg) && (!CanEscape(cfg) || CommitsAtOnce(cfg)) {
          SafeHeads(cfg, env, lifetime);
        }
      }
    }
  }

  /** A run that left its loop stays where it is. */
  lemma {:induction false} HeadStays(c: Config, e: Env, i: nat, j: nat)
    requires i <= j && (i == j || Head(c, e, i).phase != Running)
    ensures Head(c, e, j) == Head(c, e, i)
    decreases j
  {
    if i < j {
      HeadStays(c, e, i, j - 1);
    }
  }
}
