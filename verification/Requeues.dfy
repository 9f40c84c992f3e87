/** How often a job can be requeued. */
module Requeues {
  import opened Common
  import opened Schemas
  import opened JobsTable
  import opened SlotMachine
  import opened Protocol
  import opened Messages

  // ---- Pops and counted yields ----

  ghost function Owed(j: JobId): Slot -> nat {
    (x: Slot) => if x.Busy? && x.job == j then OwedAt(x.pc) else 0
  }

  ghost function Expiring(j: JobId): Slot -> nat {
    (x: Slot) => One(x.Busy? && x.job == j && x.pc.ExpireCounter?)
  }

  /** Every pop used up a message, and every message was paid for by the submit or by a
      decision to yield. */
  ghost predicate PopsPaidFor(s: State, j: JobId) {
    var t := TallyOf(s.log, j);
    t.pops + SumBy(s.st.queue, IsFor(j)) + SumBy(s.slots, Owed(j)) + One(j in s.submits)
    <= One(j in s.log.used) + t.counted + t.uncounted + 2 * t.blips
  }

  function AtMost(n: nat, limit: nat): nat {
    if n <= limit then n else limit
  }

  /** REQUEUE_MAX counted yields for every finished life of the counter, and no more than
      the count in the present one. */
  ghost predicate YieldsCounted(s: State, j: JobId) {
    var t := TallyOf(s.log, j);
    if j in s.st.counters
    then t.lives >= 1
         && t.counted + SumBy(s.slots, Expiring(j))
            <= REQUEUE_MAX * (t.lives - 1) + AtMost(s.st.counters[j].count, REQUEUE_MAX)
    else t.lives == 0 && t.counted + SumBy(s.slots, Expiring(j)) == 0
  }

  function Paid(before: Pc, after: Pc): nat {
    One(IsCountedYield(before, after)) + One(IsUncountedYield(before, after)) + 2 * One(IsBlip(before, after))
  }

  function OwedAt(pc: Pc): nat {
    if pc.YieldTouch? || pc.YieldPush? then Stake(pc) else 0
  }

  lemma StepOwes(env: Env, st: Stores, b: TokenBuckets.Bucket, job: JobId, url: string, pc: Pc, a: Answer)
    requires !pc.Done?
    ensures var n := Step(env, st, b, job, url, pc, a);
      || (n.st.queue == st.queue && OwedAt(n.pc) <= OwedAt(pc) + Paid(pc, n.pc))
      || (n.st.queue == [Message(job, url)] + st.queue && OwedAt(n.pc) + 1 == OwedAt(pc))
  {
  }

  lemma CallPaysForPops(cfg: Config, s: State, i: nat, n: Next, a: Answer, j: JobId)
    requires Shape(cfg, s) && i < |s.slots| && s.slots[i].Busy? && PopsPaidFor(s, j)
    requires PushesAtMostOne(s, i, n)
    requires |n.st.queue| + OwedAt(n.pc) <= |s.st.queue| + OwedAt(s.slots[i].pc) + Paid(s.slots[i].pc, n.pc)
    ensures PopsPaidFor(Installed(cfg, s, i, n, a), j)
  {
    CallTally(cfg, s, i, n, a, j);
    SumByUpdate(s.slots, i, SlotAfter(s.slots[i].job, s.slots[i].url, n.pc), Owed(j));
    if n.st.queue != s.st.queue {
      assert n.st.queue[1..] == s.st.queue;
    }
  }

  lemma PopsPaidForSubmit(cfg: Config, s: State, e: Event, j: JobId)
    requires IsSubmit(e) && Enabled(s, cfg, e) && PopsPaidFor(s, j)
    ensures PopsPaidFor(Submitted(s, cfg, e), j)
  {
    if e.SubmitPush? && e.a.Ok? {
      assert Submitted(s, cfg, e).st.queue[1..] == s.st.queue;
    }
  }

  lemma PopsPaidForPool(cfg: Config, s: State, e: Event, j: JobId)
    requires IsPool(e) && Enabled(s, cfg, e) && PopsPaidFor(s, j)
    ensures PopsPaidFor(Pooled(s, cfg, e), j)
  {
    var i := e.slot;
    SumByUpdate(s.slots, i, Pooled(s, cfg, e).slots[i], Owed(j));
    if e.Pop? {
      SumBySnoc(s.st.queue, IsFor(j));
    }
  }

  /** What one call does to the counters: nothing, or one bump of its own job's counter. */
  ghost predicate CountsOnce(before: Stores, after: Stores, job: JobId, pc: Pc, pc': Pc) {
    && (forall j :: j != job ==> (j in after.counters <==> j in before.counters))
    && (forall j :: j != job && j in before.counters ==> after.counters[j] == before.counters[j])
    && (pc'.ExpireCounter? ==> pc.BumpCounter? && job in after.counters && after.counters[job].count == 1)
    && (!pc'.ExpireCounter? ==>
          && (job in after.counters <==> job in before.counters)
          && (job in before.counters ==>
                var (c, c') := (before.counters[job].count, after.counters[job].count);
                c' == c || c' == c + 1)
          && (IsCountedYield(pc, pc') && pc.BumpCounter? ==>
                && job in before.counters
                && after.counters[job].count == before.counters[job].count + 1 <= REQUEUE_MAX))
  }

  lemma StepCountsOnce(env: Env, st: Stores, b: TokenBuckets.Bucket, job: JobId, url: string, pc: Pc, a: Answer)
    requires !pc.Done?
    ensures var n := Step(env, st, b, job, url, pc, a); CountsOnce(st, n.st, job, pc, n.pc)
  {
  }

  lemma CallCountsYields(cfg: Config, s: State, i: nat, n: Next, a: Answer, j: JobId)
    requires Shape(cfg, s) && i < |s.slots| && s.slots[i].Busy? && YieldsCounted(s, j)
    requires CountsOnce(s.st, n.st, s.slots[i].job, s.slots[i].pc, n.pc)
    ensures YieldsCounted(Installed(cfg, s, i, n, a), j)
  {
    CallTally(cfg, s, i, n, a, j);
    SumByUpdate(s.slots, i, SlotAfter(s.slots[i].job, s.slots[i].url, n.pc), Expiring(j));
    SumByMember(s.slots, i, Expiring(j));
  }

  lemma YieldsCountedPool(cfg: Config, s: State, e: Event, j: JobId)
    requires IsPool(e) && Enabled(s, cfg, e) && YieldsCounted(s, j)
    ensures YieldsCounted(Pooled(s, cfg, e), j)
  {
    var i := e.slot;
    SumByUpdate(s.slots, i, Pooled(s, cfg, e).slots[i], Expiring(j));
  }

  lemma YieldsCountedSubmit(cfg: Config, s: State, e: Event, j: JobId)
    requires IsSubmit(e) && Enabled(s, cfg, e) && YieldsCounted(s, j)
    ensures YieldsCounted(Submitted(s, cfg, e), j)
  {
  }

  lemma PopsPaidForStep(cfg: Config, s: State, e: Event, j: JobId)
    requires Shape(cfg, s) && Enabled(s, cfg, e) && PopsPaidFor(s, j)
    ensures PopsPaidFor(Apply(cfg, s, e), j)
  {
    if e.SlotCall? {
      CallKeepsPopsPaidFor(cfg, s, e.slot, e.a, j);
    } else if IsSubmit(e) {
      PopsPaidForSubmit(cfg, s, e, j);
    } else if IsPool(e) {
      PopsPaidForPool(cfg, s, e, j);
    } else {
      UpkeepFrame(s, cfg, e);
    }
  }

  lemma YieldsCountedStep(cfg: Config, s: State, e: Event, j: JobId)
    requires Shape(cfg, s) && Enabled(s, cfg, e) && YieldsCounted(s, j)
    ensures YieldsCounted(Apply(cfg, s, e), j)
  {
    if e.SlotCall? {
      CallKeepsYieldsCounted(cfg, s, e.slot, e.a, j);
    } else if IsSubmit(e) {
      YieldsCountedSubmit(cfg, s, e, j);
    } else if IsPool(e) {
      YieldsCountedPool(cfg, s, e, j);
    } else {
      UpkeepFrame(s, cfg, e);
    }
  }

  lemma CallKeepsPopsPaidFor(cfg: Config, s: State, i: nat, a: Answer, j: JobId)
    requires Shape(cfg, s) && i < |s.slots| && s.slots[i].Busy? && PopsPaidFor(s, j)
    ensures PopsPaidFor(SlotCalled(cfg, s, i, a), j)
  {
    var p := cfg.processOf[i];
    StepOwes(Env(cfg.psv[p], cfg.post), s.st, s.buckets[p], s.slots[i].job, s.slots[i].url, s.slots[i].pc, a);
    CallPaysForPops(cfg, s, i, SlotNext(cfg, s, i, a), a, j);
  }

  lemma CallKeepsYieldsCounted(cfg: Config, s: State, i: nat, a: Answer, j: JobId)
    requires Shape(cfg, s) && i < |s.slots| && s.slots[i].Busy? && YieldsCounted(s, j)
    ensures YieldsCounted(SlotCalled(cfg, s, i, a), j)
  {
    var p := cfg.processOf[i];
    StepCountsOnce(Env(cfg.psv[p], cfg.post), s.st, s.buckets[p], s.slots[i].job, s.slots[i].url, s.slots[i].pc, a);
    CallCountsYields(cfg, s, i, SlotNext(cfg, s, i, a), a, j);
  }

  // ---- The lives of a counter ----

  /** What one call does to the counter of its job: it starts a new life when the old one is over, or
      it keeps the counter, and if it touches the expiry at all, it sets it one TTL ahead. */
  ghost predicate CounterMoves(before: Stores, after: Stores, job: JobId, pc: Pc, pc': Pc) {
    && after.now == before.now
    && (forall j :: j != job ==> (j in after.counters <==> j in before.counters))
    && (forall j :: j != job && j in before.counters ==> after.counters[j] == before.counters[j])
    && (if pc.BumpCounter? && pc'.ExpireCounter?
        then LiveCount(before, job) == 0 && job in after.counters && after.counters[job] == Counter(1, None)
        else
          && (job in after.counters <==> job in before.counters)
          && (job in before.counters ==>
                var (c, c') := (before.counters[job], after.counters[job]);
                c'.count >= c.count
                && (c'.expires == c.expires || c'.expires == Some(before.now + REDIS_REQUEUE_TTL_SECONDS))))
  }

  lemma StepMovesCounter(env: Env, st: Stores, b: TokenBuckets.Bucket, job: JobId, url: string, pc: Pc, a: Answer)
    requires !pc.Done?
    ensures var n := Step(env, st, b, job, url, pc, a); CounterMoves(st, n.st, job, pc, n.pc)
  {
  }

  /** The seconds that `lives` whole lives take. */
  function Lasting(lives: int): real {
    lives as real * REDIS_REQUEUE_TTL_SECONDS
  }

  lemma OneMoreLife(lives: int)
    ensures Lasting(lives + 1) == Lasting(lives) + REDIS_REQUEUE_TTL_SECONDS
  {
  }

  /** All lives but the present one are over, and the present one ends a TTL after them at the
      earliest. */
  ghost predicate Timed(st: Stores, j: JobId, lives: nat) {
    && 0.0 <= st.now
    && (j in st.counters ==>
          var c := st.counters[j];
          && c.count >= 1 && Lasting(lives - 1) <= st.now
          && (c.expires.Some? ==> Lasting(lives) <= c.expires.value))
  }

  ghost predicate LivesTimed(s: State, j: JobId) {
    Timed(s.st, j, TallyOf(s.log, j).lives)
  }

  lemma MoveKeepsTimed(before: Stores, after: Stores, job: JobId, pc: Pc, pc': Pc, j: JobId, lives: nat)
    requires CounterMoves(before, after, job, pc, pc') && Timed(before, j, lives)
    requires j !in before.counters ==> lives == 0
    ensures Timed(after, j, lives + One(job == j && pc.BumpCounter? && pc'.ExpireCounter?))
  {
    OneMoreLife(lives - 1);
    OneMoreLife(0);
  }

  lemma CallKeepsLivesTimed(cfg: Config, s: State, i: nat, a: Answer, j: JobId)
    requires Shape(cfg, s) && i < |s.slots| && s.slots[i].Busy? && YieldsCounted(s, j) && LivesTimed(s, j)
    ensures LivesTimed(SlotCalled(cfg, s, i, a), j)
  {
    var n, p := SlotNext(cfg, s, i, a), cfg.processOf[i];
    StepMovesCounter(Env(cfg.psv[p], cfg.post), s.st, s.buckets[p], s.slots[i].job, s.slots[i].url, s.slots[i].pc, a);
    CallTimesLives(cfg, s, i, n, a, j);
  }

  lemma CallTimesLives(cfg: Config, s: State, i: nat, n: Next, a: Answer, j: JobId)
    requires Shape(cfg, s) && i < |s.slots| && s.slots[i].Busy? && YieldsCounted(s, j) && LivesTimed(s, j)
    requires CounterMoves(s.st, n.st, s.slots[i].job, s.slots[i].pc, n.pc)
    ensures LivesTimed(Installed(cfg, s, i, n, a), j)
  {
    var Busy(job, url, pc) := s.slots[i];
    CallTally(cfg, s, i, n, a, j);
    MoveKeepsTimed(s.st, n.st, job, pc, n.pc, j, TallyOf(s.log, j).lives);
  }

  lemma LivesTimedStep(cfg: Config, s: State, e: Event, j: JobId)
    requires Shape(cfg, s) && Enabled(s, cfg, e) && YieldsCounted(s, j) && LivesTimed(s, j)
    ensures LivesTimed(Apply(cfg, s, e), j)
  {
    if e.SlotCall? {
      CallKeepsLivesTimed(cfg, s, e.slot, e.a, j);
    } else if IsUpkeep(e) {
      UpkeepFrame(s, cfg, e);
    }
  }

  // ---- Over all runs ----

  ghost predicate Requeued(s: State, j: JobId) {
    PopsPaidFor(s, j) && YieldsCounted(s, j) && LivesTimed(s, j)
  }

  lemma RequeuedInit(cfg: Config, s: State, j: JobId)
    requires Init(cfg, s)
    ensures Requeued(s, j)
  {
    SumByZero(s.slots, Owed(j));
    SumByZero(s.slots, Expiring(j));
  }

  lemma RequeuedStep(cfg: Config, s: State, e: Event, j: JobId)
    requires Shape(cfg, s) && Enabled(s, cfg, e) && Requeued(s, j)
    ensures Requeued(Apply(cfg, s, e), j)
  {
    PopsPaidForStep(cfg, s, e, j);
    YieldsCountedStep(cfg, s, e, j);
    LivesTimedStep(cfg, s, e, j);
  }

  lemma {:induction false} RequeuedRun(cfg: Config, s: State, es: seq<Event>, j: JobId)
    requires Shape(cfg, s) && Valid(cfg, s, es) && Requeued(s, j)
    ensures Requeued(Run(cfg, s, es), j)
    decreases |es|
  {
    if es == [] {
    } else {
      RequeuedStep(cfg, s, es[0], j);
      ShapeKept(cfg, s, es[0]);
      RequeuedRun(cfg, Apply(cfg, s, es[0]), es[1..], j);
    }
  }

  /** A counter starts again only when it has expired, so at most once per TTL. */
  lemma LivesBounded(cfg: Config, s: State, es: seq<Event>, j: JobId)
    requires Init(cfg, s) && Valid(cfg, s, es)
    ensures var r := Run(cfg, s, es); Lasting(TallyOf(r.log, j).lives) <= REDIS_REQUEUE_TTL_SECONDS + r.st.now
  {
    RequeuedInit(cfg, s, j);
    RequeuedRun(cfg, s, es, j);
  }

  /** How many counted yields `now` seconds allow: REQUEUE_MAX, and as many again for every TTL. */
  function YieldLimit(now: real): real {
    REQUEUE_MAX as real * (1.0 + now / REDIS_REQUEUE_TTL_SECONDS)
  }

  lemma YieldsWithinLimit(counted: nat, lives: nat, now: real)
    requires counted <= REQUEUE_MAX * lives && Lasting(lives) <= REDIS_REQUEUE_TTL_SECONDS + now
    ensures counted as real <= YieldLimit(now)
  {
  }

  /** Bounded requeue: whatever the interleaving, a job yields at most REQUEUE_MAX times with a count,
      and as many times again for every TTL of the counter that has passed; and it is popped at most
      once for its submit, once for every yield, and twice for every counter call that failed. */
  lemma BoundedRequeue(cfg: Config, s: State, es: seq<Event>, j: JobId)
    requires Init(cfg, s) && Valid(cfg, s, es)
    ensures var r := Run(cfg, s, es); var t := TallyOf(r.log, j);
      && t.counted as real <= YieldLimit(r.st.now)
      && t.pops as real <= 1.0 + YieldLimit(r.st.now) + (t.uncounted + 2 * t.blips) as real
  {
    RequeuedInit(cfg, s, j);
    RequeuedRun(cfg, s, es, j);
    LivesBounded(cfg, s, es, j);
    var r := Run(cfg, s, es);
    YieldsWithinLimit(TallyOf(r.log, j).counted, TallyOf(r.log, j).lives, r.st.now);
  }

  // ---- Without expiry ----

  predicate Expired(st: Stores, j: JobId) {
    j in st.counters && st.counters[j].expires.Some? && st.counters[j].expires.value <= st.now
  }

  /** In no state of the run the counter of `j` has expired. */
  ghost predicate NeverExpired(cfg: Config, s: State, es: seq<Event>, j: JobId)
    requires Shape(cfg, s) && Valid(cfg, s, es)
    decreases |es|
  {
    && !Expired(s.st, j)
    && (es != [] ==> (ShapeKept(cfg, s, es[0]); NeverExpired(cfg, Apply(cfg, s, es[0]), es[1..], j)))
  }

  lemma OneLifeStep(cfg: Config, s: State, e: Event, j: JobId)
    requires Shape(cfg, s) && Enabled(s, cfg, e) && YieldsCounted(s, j) && LivesTimed(s, j)
    requires !Expired(s.st, j) && TallyOf(s.log, j).lives <= 1
    ensures TallyOf(Apply(cfg, s, e).log, j).lives <= 1
  {
    if e.SlotCall? {
      var n, i := SlotNext(cfg, s, e.slot, e.a), e.slot;
      var p := cfg.processOf[i];
      var Busy(job, url, pc) := s.slots[i];
      StepMovesCounter(Env(cfg.psv[p], cfg.post), s.st, s.buckets[p], job, url, pc, e.a);
      CallTally(cfg, s, i, n, e.a, j);
    } else if IsUpkeep(e) {
      UpkeepFrame(s, cfg, e);
    }
  }

  lemma {:induction false} OneLifeRun(cfg: Config, s: State, es: seq<Event>, j: JobId)
    requires Shape(cfg, s) && Valid(cfg, s, es) && Requeued(s, j)
    requires NeverExpired(cfg, s, es, j) && TallyOf(s.log, j).lives <= 1
    ensures TallyOf(Run(cfg, s, es).log, j).lives <= 1
    decreases |es|
  {
    if es == [] {
    } else {
      OneLifeStep(cfg, s, es[0], j);
      RequeuedStep(cfg, s, es[0], j);
      ShapeKept(cfg, s, es[0]);
      OneLifeRun(cfg, Apply(cfg, s, es[0]), es[1..], j);
    }
  }

  /** While the counter of a job has not expired, it yields REQUEUE_MAX times with a count at most. */
  lemma BoundedRequeueWithoutExpiry(cfg: Config, s: State, es: seq<Event>, j: JobId)
    requires Init(cfg, s) && Valid(cfg, s, es) && NeverExpired(cfg, s, es, j)
    ensures var t := TallyOf(Run(cfg, s, es).log, j);
      && t.counted <= REQUEUE_MAX
      && t.pops <= 1 + REQUEUE_MAX + t.uncounted + 2 * t.blips
  {
    RequeuedInit(cfg, s, j);
    RequeuedRun(cfg, s, es, j);
    OneLifeRun(cfg, s, es, j);
  }
}
