/**
 The time-based load test with bounded in-flight work. The clock and the latencies are arbitrary
 functions, and so is what each wait brings; which of the futures completes next is free; and
 `lifetime` bounds only how many waits the run is watched for, so the contract holds at every point
 where the main loop is entered or left.
 */
module LoadScheduler {
  import opened Options
  import opened Arithmetic
  import opened Sequences

  /** What a wait brings: a finished future, one that raised, or nothing in time. */
  datatype WaitResult = Ready | Raises | Expires

  datatype Exit = Watching | Drained | TimedOut | Failed

  /** `slots` lists the pool position of each submission, `finished` the submissions in order of completion. */
  datatype Run = Run(exit: Exit, submitted: nat, completed: nat, inFlight: set<nat>,
                     slots: seq<nat>, finished: seq<nat>, latencies: seq<real>)

  function Max(a: int, b: int): int {
    if a >= b then a else b
  }

  function Limit(maxInFlight: Option<int>, workers: int): int {
    if maxInFlight.None? || maxInFlight.value == 0 then Max(64, workers * 32) else maxInFlight.value
  }

  ghost function Ids(n: nat): (ids: set<nat>)
    ensures forall i :: i in ids <==> 0 <= i < n
  {
    if n == 0 then {} else Ids(n - 1) + {n - 1}
  }

  /** Every submission is in flight or finished, and not both; every finished one has its latency. */
  ghost predicate Accounted(r: Run) {
    && r.submitted == r.completed + |r.inFlight|
    && |r.latencies| == |r.finished| == r.completed
    && Distinct(r.finished)
    && Elements(r.finished) !! r.inFlight
    && Elements(r.finished) + r.inFlight == Ids(r.submitted)
  }

  /** The pool positions of the first `n` submissions: round and round. */
  function Slots(n: nat, pool: nat): seq<nat>
    requires pool > 0
  {
    if n == 0 then [] else Slots(n - 1, pool) + [(n - 1) % pool]
  }

  ghost predicate RoundRobin(r: Run, pool: nat)
    requires pool > 0
  {
    r.slots == Slots(r.submitted, pool)
  }

  /** Each completed submission has its own latency. */
  ghost predicate Timed(r: Run, latency: nat -> real) {
    |r.latencies| == |r.finished| && forall k :: 0 <= k < |r.finished| ==> r.latencies[k] == latency(r.finished[k])
  }

  /** Some of the first `ticks` readings is at or past the end. */
  ghost predicate Ended(ticks: nat, clock: nat -> real, end: real) {
    exists k: nat :: k < ticks && clock(k) >= end
  }

  /** A limit that is given and not zero is the limit; otherwise it is 64, or 32 per worker if that is more. */
  lemma LimitIs(maxInFlight: Option<int>, workers: int)
    ensures maxInFlight.Some? && maxInFlight.value != 0 ==> Limit(maxInFlight, workers) == maxInFlight.value
    ensures maxInFlight.None? || maxInFlight.value == 0 ==>
              var l := Limit(maxInFlight, workers); l >= 64 && l >= 32 * workers && (l == 64 || l == 32 * workers)
  {
  }

  ghost predicate Bounded(r: Run, limit: int) {
    |r.inFlight| <= Max(limit, 0)
  }

  function Submit(r: Run, pool: nat): Run
    requires pool > 0
  {
    r.(submitted := r.submitted + 1, inFlight := r.inFlight + {r.submitted}, slots := r.slots + [r.submitted % pool])
  }

  lemma AddFresh(finished: set<nat>, inFlight: set<nat>, n: nat)
    requires finished !! inFlight && finished + inFlight == Ids(n)
    ensures finished !! inFlight + {n} && finished + (inFlight + {n}) == Ids(n + 1) && |inFlight + {n}| == |inFlight| + 1
  {
    assert n !in Ids(n);
  }

  lemma SubmitAccounted(r: Run, pool: nat)
    requires pool > 0 && Accounted(r)
    ensures Accounted(Submit(r, pool)) && |Submit(r, pool).inFlight| == |r.inFlight| + 1
  {
    AddFresh(Elements(r.finished), r.inFlight, r.submitted);
  }

  lemma SubmitRoundRobin(r: Run, pool: nat)
    requires pool > 0 && RoundRobin(r, pool)
    ensures RoundRobin(Submit(r, pool), pool)
  {
  }

  function Complete(r: Run, id: nat, latency: real): Run {
    r.(completed := r.completed + 1, inFlight := r.inFlight - {id}, finished := r.finished + [id],
       latencies := r.latencies + [latency])
  }

  lemma CompleteKeeps(r: Run, id: nat, latency: real, pool: nat, limit: int)
    requires pool > 0 && Accounted(r) && RoundRobin(r, pool) && Bounded(r, limit) && id in r.inFlight
    ensures var s := Complete(r, id, latency);
            Accounted(s) && RoundRobin(s, pool) && Bounded(s, limit)
  {
    var s := Complete(r, id, latency);
    ElementsSnoc(r.finished, id);
    assert id !in Elements(r.finished);
    assert r.inFlight == s.inFlight + {id};
  }

  /** What both loops keep. */
  ghost predicate Kept(r: Run, pool: nat, limit: int, latency: nat -> real)
    requires pool > 0
  {
    Accounted(r) && RoundRobin(r, pool) && Bounded(r, limit) && Timed(r, latency)
  }

  lemma SubmitKeeps(r: Run, pool: nat, limit: int, latency: nat -> real)
    requires pool > 0 && Kept(r, pool, limit, latency) && |r.inFlight| < limit
    ensures Kept(Submit(r, pool), pool, limit, latency) && |Submit(r, pool).inFlight| == |r.inFlight| + 1
  {
    SubmitAccounted(r, pool);
    SubmitRoundRobin(r, pool);
  }

  /** `s` is `r` with submissions added. */
  ghost predicate Filling(r: Run, s: Run, pool: nat, limit: int, latency: nat -> real)
    requires pool > 0
  {
    && Kept(s, pool, limit, latency)
    && s.exit == r.exit && r.inFlight <= s.inFlight && s.completed == r.completed
  }

  lemma FillStep(r: Run, s: Run, pool: nat, limit: int, latency: nat -> real)
    requires pool > 0 && Filling(r, s, pool, limit, latency) && |s.inFlight| < limit
    ensures Filling(r, Submit(s, pool), pool, limit, latency) && |Submit(s, pool).inFlight| == |s.inFlight| + 1
  {
    SubmitKeeps(s, pool, limit, latency);
  }

  /** The loop that tops the in-flight set up: it stops only at the limit or past the end. */
  method Fill(r: Run, pool: nat, limit: int, clock: nat -> real, from: nat, end: real, ghost latency: nat -> real)
    returns (s: Run, ticks: nat)
    requires pool > 0 && Kept(r, pool, limit, latency)
    ensures Filling(r, s, pool, limit, latency) && from <= ticks
    ensures |s.inFlight| >= limit || Ended(ticks, clock, end)
    ensures |r.inFlight| >= limit ==> s == r
  {
    s, ticks := r, from;
    while |s.inFlight| < limit
      invariant Filling(r, s, pool, limit, latency) && from <= ticks
      invariant |r.inFlight| >= limit ==> s == r
      decreases limit - |s.inFlight|
    {
      ticks := ticks + 1;
      if clock(ticks - 1) >= end {
        return;
      }
      FillStep(r, s, pool, limit, latency);
      s := Submit(s, pool);
    }
  }

  /** One round of the main loop up to the wait: top up unless time is over. */
  method TopUp(r: Run, pool: nat, limit: int, clock: nat -> real, from: nat, end: real, ghost latency: nat -> real)
    returns (s: Run, ticks: nat)
    requires pool > 0 && Kept(r, pool, limit, latency)
    ensures Filling(r, s, pool, limit, latency) && from <= ticks
    ensures |s.inFlight| >= limit || Ended(ticks, clock, end)
    ensures |r.inFlight| >= limit ==> s == r
  {
    s, ticks := r, from + 1;
    if clock(from) < end {
      s, ticks := Fill(r, pool, limit, clock, ticks, end, latency);
    }
  }

  /** With room for two, the set runs empty only once time is over; with room for one, after the first submission. */
  ghost predicate LastsAsItShould(r: Run, limit: int, ticks: nat, clock: nat -> real, end: real) {
    && (limit >= 2 && r.inFlight == {} ==> Ended(ticks, clock, end))
    && (limit == 1 ==> r.submitted <= 1)
    && (limit <= 0 ==> r.submitted == 0)
  }

  lemma CompleteLasts(r: Run, id: nat, latency: real, limit: int, ticks: nat, clock: nat -> real, end: real)
    requires LastsAsItShould(r, limit, ticks, clock, end) && id in r.inFlight
    requires |r.inFlight| >= limit || Ended(ticks, clock, end)
    ensures LastsAsItShould(Complete(r, id, latency), limit, ticks, clock, end)
  {
    if limit >= 2 && Complete(r, id, latency).inFlight == {} {
      assert r.inFlight == {id};
    }
  }

  /** A future that raised is out of the set but not completed. */
  ghost predicate FailedWell(r: Run, pool: nat, limit: int, latency: nat -> real)
    requires pool > 0
  {
    && r.submitted == r.completed + |r.inFlight| + 1 && |r.latencies| == r.completed
    && RoundRobin(r, pool) && Bounded(r, limit) && Timed(r, latency)
  }

  ghost predicate Going(r: Run, pool: nat, limit: int, latency: nat -> real, ticks: nat, clock: nat -> real, end: real)
    requires pool > 0
  {
    if r.exit == Failed then FailedWell(r, pool, limit, latency)
    else Kept(r, pool, limit, latency) && LastsAsItShould(r, limit, ticks, clock, end)
  }

  /** One more completion, or the exit that fits. */
  ghost predicate Waited(r: Run, s: Run, wait: WaitResult) {
    match wait
    case Ready => s.exit == Watching && s.completed == r.completed + 1
    case Raises => s.exit == Failed && s.completed == r.completed
    case Expires => s.exit == TimedOut && s.completed == r.completed
  }

  /** Every completion came of a wait that was ready, and an early exit of one that was not. */
  ghost predicate AsWaited(completed: nat, exit: Exit, waits: nat -> WaitResult) {
    && (forall k: nat :: k < completed ==> waits(k) == Ready)
    && (exit == Failed ==> waits(completed) == Raises)
    && (exit == TimedOut ==> waits(completed) == Expires)
  }

  lemma WaitedOnce(r: Run, s: Run, waits: nat -> WaitResult)
    requires AsWaited(r.completed, r.exit, waits) && r.exit == Watching && Waited(r, s, waits(r.completed))
    ensures AsWaited(s.completed, s.exit, waits) && (s.exit == Watching ==> s.completed == r.completed + 1)
  {
  }

  lemma RaisedFails(r: Run, id: nat, pool: nat, limit: int, latency: nat -> real)
    requires pool > 0 && Kept(r, pool, limit, latency) && id in r.inFlight
    ensures FailedWell(r.(inFlight := r.inFlight - {id}, exit := Failed), pool, limit, latency)
  {
  }

  lemma ToppedUpLasts(r: Run, s: Run, limit: int, from: nat, ticks: nat, clock: nat -> real, end: real)
    requires LastsAsItShould(r, limit, from, clock, end) && r.inFlight != {} && r.inFlight <= s.inFlight
    requires |r.inFlight| >= limit ==> s == r
    ensures LastsAsItShould(s, limit, ticks, clock, end)
  {
    assert |r.inFlight| >= 1;
  }

  lemma TakenKeeps(r: Run, id: nat, pool: nat, limit: int, latency: nat -> real, ticks: nat, clock: nat -> real, end: real)
    requires pool > 0 && r.exit == Watching && Going(r, pool, limit, latency, ticks, clock, end) && id in r.inFlight
    requires |r.inFlight| >= limit || Ended(ticks, clock, end)
    ensures Going(Complete(r, id, latency(id)), pool, limit, latency, ticks, clock, end)
  {
    CompleteKeeps(r, id, latency(id), pool, limit);
    CompleteLasts(r, id, latency(id), limit, ticks, clock, end);
  }

  /** The wait: it times out, the future raises, or its result is taken. */
  method Wait(r: Run, pool: nat, limit: int, wait: WaitResult, latency: nat -> real,
              ghost ticks: nat, ghost clock: nat -> real, ghost end: real)
    returns (s: Run)
    requires pool > 0 && r.exit == Watching && r.inFlight != {} && Going(r, pool, limit, latency, ticks, clock, end)
    requires |r.inFlight| >= limit || Ended(ticks, clock, end)
    ensures Going(s, pool, limit, latency, ticks, clock, end) && s.exit != Drained
    ensures Waited(r, s, wait)
  {
    if wait == Expires {
      s := r.(exit := TimedOut);
      return;
    }
    var id :| id in r.inFlight;
    if wait == Raises {
      RaisedFails(r, id, pool, limit, latency);
      s := r.(inFlight := r.inFlight - {id}, exit := Failed);
    } else {
      TakenKeeps(r, id, pool, limit, latency, ticks, clock, end);
      s := Complete(r, id, latency(id));
    }
  }

  /** `_run_events_timed`. */
  method RunEventsTimed(pool: nat, workers: int, maxInFlight: Option<int>, duration: real, clock: nat -> real, latency: nat -> real,
                        waits: nat -> WaitResult, lifetime: nat)
    returns (r: Run, ticks: nat)
    ensures Bounded(r, Limit(maxInFlight, workers))
    ensures maxInFlight.Some? && maxInFlight.value > 0 ==> |r.inFlight| <= maxInFlight.value
    ensures r.exit != Failed ==> Accounted(r)
    ensures r.exit == Failed ==> r.submitted == r.completed + |r.inFlight| + 1 && |r.latencies| == r.completed
    ensures AsWaited(r.completed, r.exit, waits) && (r.exit == Watching ==> r.inFlight != {} && r.completed == lifetime)
    ensures r.exit == Drained ==> r.completed == r.submitted == |r.latencies| && Elements(r.finished) == Ids(r.submitted)
    ensures Timed(r, latency)
    ensures forall p, q :: 0 <= p < pool && 0 <= q < pool ==> Uses(r.slots, p) <= Uses(r.slots, q) + 1
    ensures pool > 0 && r.exit != Failed ==>
              LastsAsItShould(r, Limit(maxInFlight, workers), ticks, clock, clock(0) + if duration > 0.0 then duration else 0.0)
  {
    r, ticks := Run(Watching, 0, 0, {}, [], [], []), 0;
    if pool == 0 {
      r := r.(exit := Drained);
      return;
    }
    var limit := Limit(maxInFlight, workers);
    var end := clock(0) + if duration > 0.0 then duration else 0.0;
    r, ticks := Drive(pool, limit, clock, end, latency, waits, lifetime);
    SlotsWalk(r.submitted, pool);
    Balanced(r.slots, pool);
    if r.exit == Watching && r.inFlight == {} {
      r := r.(exit := Drained);
    }
  }

  method StartRun(pool: nat, limit: int, clock: nat -> real, end: real, ghost latency: nat -> real) returns (r: Run, ticks: nat)
    requires pool > 0
    ensures r.exit == Watching && r.completed == 0 && Going(r, pool, limit, latency, ticks, clock, end)
  {
    r := Run(Watching, 0, 0, {}, [], [], []);
    assert Kept(r, pool, limit, latency);
    r, ticks := Fill(r, pool, limit, clock, 1, end, latency);
  }

  /** The main loop. */
  method Drive(pool: nat, limit: int, clock: nat -> real, end: real, latency: nat -> real, waits: nat -> WaitResult, lifetime: nat)
    returns (r: Run, ticks: nat)
    requires pool > 0
    ensures Going(r, pool, limit, latency, ticks, clock, end) && r.exit != Drained && AsWaited(r.completed, r.exit, waits)
    ensures r.exit == Watching && r.inFlight != {} ==> r.completed == lifetime
  {
    r, ticks := StartRun(pool, limit, clock, end, latency);
    var step := 0;
    while r.exit == Watching && r.inFlight != {} && step < lifetime
      invariant Going(r, pool, limit, latency, ticks, clock, end) && r.exit != Drained && AsWaited(r.completed, r.exit, waits)
      invariant step <= lifetime && (r.exit == Watching ==> r.completed == step)
      decreases lifetime - step
    {
      ghost var before := r;
      r, ticks := Round(r, pool, limit, waits(step), latency, ticks, clock, end);
      WaitedOnce(before, r, waits);
      step := step + 1;
    }
  }

  /** One round of the main loop. */
  method Round(r: Run, pool: nat, limit: int, wait: WaitResult, latency: nat -> real, from: nat, clock: nat -> real, end: real)
    returns (s: Run, ticks: nat)
    requires pool > 0 && r.exit == Watching && r.inFlight != {} && Going(r, pool, limit, latency, from, clock, end)
    ensures Going(s, pool, limit, latency, ticks, clock, end) && s.exit != Drained && Waited(r, s, wait)
  {
    s, ticks := TopUp(r, pool, limit, clock, from, end, latency);
    ToppedUpLasts(r, s, limit, from, ticks, clock, end);
    s := Wait(s, pool, limit, wait, latency, ticks, clock, end);
  }

  // ----- Fairness over the pool -----

  function Uses(slots: seq<nat>, p: nat): nat {
    if slots == [] then 0 else Uses(slots[..|slots| - 1], p) + if slots[|slots| - 1] == p then 1 else 0
  }

  ghost predicate Walks(slots: seq<nat>, pool: nat)
    requires pool > 0
  {
    forall k :: 0 <= k < |slots| ==> slots[k] == k % pool
  }

  lemma {:induction false} SlotsWalk(n: nat, pool: nat)
    requires pool > 0
    ensures |Slots(n, pool)| == n && Walks(Slots(n, pool), pool)
  {
    if n > 0 {
      SlotsWalk(n - 1, pool);
    }
  }

  /** After `q` full turns and `m` steps the last step was at position `m - 1`, or at the end of the pool. */
  lemma LastSlot(slots: seq<nat>, pool: nat, q: nat, m: nat)
    requires pool > 0 && Walks(slots, pool) && slots != [] && |slots| == q * pool + m && m < pool
    ensures slots[|slots| - 1] == if m > 0 then m - 1 else pool - 1
  {
    var n := |slots| - 1;
    if m > 0 {
      Quotient(n, pool, q, m - 1);
    } else {
      assert n == (q - 1) * pool + (pool - 1);
      Quotient(n, pool, q - 1, pool - 1);
    }
    assert slots[n] == n % pool;
  }

  lemma WalksPrefix(slots: seq<nat>, pool: nat)
    requires pool > 0 && Walks(slots, pool) && slots != []
    ensures Walks(slots[..|slots| - 1], pool)
  {
  }

  /** Round robin uses position `p` once per full turn, and once more if the last turn got past it. */
  lemma {:induction false} UsesOf(slots: seq<nat>, pool: nat, p: nat, q: nat, m: nat)
    requires pool > 0 && p < pool && Walks(slots, pool) && |slots| == q * pool + m && m < pool
    ensures Uses(slots, p) == q + if p < m then 1 else 0
    decreases |slots|
  {
    if slots != [] {
      var init := slots[..|slots| - 1];
      LastSlot(slots, pool, q, m);
      WalksPrefix(slots, pool);
      if m > 0 {
        UsesOf(init, pool, p, q, m - 1);
      } else {
        assert |init| == (q - 1) * pool + (pool - 1);
        UsesOf(init, pool, p, q - 1, pool - 1);
      }
    } else {
      NoTurns(pool, q, m);
    }
  }

  lemma NoTurns(pool: nat, q: nat, m: nat)
    requires pool > 0 && q * pool + m == 0
    ensures q == 0 && m == 0
  {
    if q > 0 {
      AtLeastOnce(q, pool);
    }
  }

  /** No pool position is submitted more than once more often than another. */
  lemma Balanced(slots: seq<nat>, pool: nat)
    requires pool > 0 && Walks(slots, pool)
    ensures forall p, q :: 0 <= p < pool && 0 <= q < pool ==> Uses(slots, p) <= Uses(slots, q) + 1
  {
    forall p: nat, q: nat | p < pool && q < pool ensures Uses(slots, p) <= Uses(slots, q) + 1 {
      UsesOf(slots, pool, p, |slots| / pool, |slots| % pool);
      UsesOf(slots, pool, q, |slots| / pool, |slots| % pool);
    }
  }
}
