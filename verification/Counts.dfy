/** What the log of a run counts, told by the events of the run; and the bounds on it told so. */
module Counts {
  import opened Common
  import opened Schemas
  import opened JobsTable
  import opened Extractor
  import opened SlotMachine
  import opened Protocol
  import opened Messages
  import opened Requeues
  import opened GeminiBudget
  import opened Exits

  /** The sum over the events of a run. */
  ghost function Total(cfg: Config, s: State, es: seq<Event>, weight: (State, Event) -> nat): nat
    requires Shape(cfg, s) && Valid(cfg, s, es)
    decreases |es|
  {
    if es == [] then 0
    else
      ShapeKept(cfg, s, es[0]);
      weight(s, es[0]) + Total(cfg, Apply(cfg, s, es[0]), es[1..], weight)
  }

  // ---- What is counted ----

  predicate Calls(s: State, e: Event) {
    e.SlotCall? && e.slot < |s.slots| && s.slots[e.slot].Busy?
  }

  /** The oldest message of the queue, which is for `j`, is taken. */
  ghost function Pops(j: JobId): (State, Event) -> nat {
    (s: State, e: Event) => One(e.Pop? && s.st.queue != [] && s.st.queue[|s.st.queue| - 1].job == j)
  }

  /** A call puts `j` back, and the job is not to blame. */
  ghost function Excuses(cfg: Config, j: JobId): (State, Event) -> nat {
    (s: State, e: Event) =>
      One(Calls(s, e) && s.slots[e.slot].job == j && e.slot < |cfg.processOf| && cfg.processOf[e.slot] < |s.buckets|
          && NotItsFault(s.st, s.buckets[cfg.processOf[e.slot]], s.slots[e.slot].pc, e.a))
  }

  predicate CounterFails(s: State, e: Event) {
    Calls(s, e) && Counting(s.slots[e.slot].pc) && e.a.Unavailable?
  }

  /** A counter call for `j` fails, or one for any job. */
  ghost function CounterFailures(j: JobId): (State, Event) -> nat {
    (s: State, e: Event) => One(CounterFails(s, e) && s.slots[e.slot].job == j)
  }

  ghost function AllCounterFailures(): (State, Event) -> nat {
    (s: State, e: Event) => One(CounterFails(s, e))
  }

  /** A submit's look at the queue fails, and it goes on. */
  ghost function FailOpens(): (State, Event) -> nat {
    (s: State, e: Event) => One(e.SubmitCheck? && !e.a.Ok?)
  }

  /** Gemini calls of process `p`: those of an extraction, or those made before it was cut short. */
  ghost function Attempts(cfg: Config, p: nat): (State, Event) -> nat {
    (s: State, e: Event) =>
      if Calls(s, e) && e.slot < |cfg.processOf| && cfg.processOf[e.slot] == p
         && s.slots[e.slot].pc.Extract? && e.a.Gemini?
      then Retry(e.a.replies, RETRIES, 0).1
      else if e.Crash? && e.slot < |cfg.processOf| && cfg.processOf[e.slot] == p then e.calls
      else 0
  }

  // ---- The log has counted just that ----

  lemma YieldTold(env: Env, st: Stores, b: TokenBuckets.Bucket, job: JobId, url: string, pc: Pc, a: Answer)
    requires !pc.Done?
    ensures var pc' := Step(env, st, b, job, url, pc, a).pc;
      && (IsUncountedYield(pc, pc') <==> NotItsFault(st, b, pc, a))
      && (IsBlip(pc, pc') <==> Counting(pc) && a.Unavailable?)
  {
    if Counting(pc) {
      BlipExactly(env, st, b, job, url, pc, a);
    } else if !pc.YieldPush? {
      UncountedExactly(env, st, b, job, url, pc, a);
    }
  }

  lemma SlotTold(cfg: Config, s: State, i: nat, a: Answer)
    requires Shape(cfg, s) && i < |s.slots| && s.slots[i].Busy?
    ensures var (pc, pc') := (s.slots[i].pc, SlotNext(cfg, s, i, a).pc);
      && One(IsUncountedYield(pc, pc')) == Excuses(cfg, s.slots[i].job)(s, SlotCall(i, a))
      && (IsBlip(pc, pc') <==> CounterFails(s, SlotCall(i, a)))
  {
    var p := cfg.processOf[i];
    var Busy(job, url, pc) := s.slots[i];
    YieldTold(Env(cfg.psv[p], cfg.post), s.st, s.buckets[p], job, url, pc, a);
  }

  ghost predicate TalliesTold(cfg: Config, s: State, e: Event, t: State, j: JobId) {
    var (x, y) := (TallyOf(s.log, j), TallyOf(t.log, j));
    && y.pops == x.pops + Pops(j)(s, e)
    && y.uncounted == x.uncounted + Excuses(cfg, j)(s, e)
    && y.blips == x.blips + CounterFailures(j)(s, e)
  }

  ghost predicate TotalsTold(s: State, e: Event, t: State) {
    && t.log.blips == s.log.blips + AllCounterFailures()(s, e)
    && t.log.failOpens == s.log.failOpens + FailOpens()(s, e)
  }

  ghost predicate GeminiTold(cfg: Config, s: State, e: Event, t: State, p: nat) {
    && p < |s.log.gemini| && p < |t.log.gemini|
    && t.log.gemini[p].calls == s.log.gemini[p].calls + Attempts(cfg, p)(s, e)
  }

  lemma InstalledTold(cfg: Config, s: State, i: nat, n: Next, a: Answer, j: JobId)
    requires Shape(cfg, s) && i < |s.slots| && s.slots[i].Busy?
    requires One(IsUncountedYield(s.slots[i].pc, n.pc)) == Excuses(cfg, s.slots[i].job)(s, SlotCall(i, a))
    requires IsBlip(s.slots[i].pc, n.pc) <==> CounterFails(s, SlotCall(i, a))
    ensures TalliesTold(cfg, s, SlotCall(i, a), Installed(cfg, s, i, n, a), j)
    ensures TotalsTold(s, SlotCall(i, a), Installed(cfg, s, i, n, a))
  {
    CallTally(cfg, s, i, n, a, j);
  }

  lemma StepTold(cfg: Config, s: State, e: Event, j: JobId)
    requires Shape(cfg, s) && Enabled(s, cfg, e)
    ensures TalliesTold(cfg, s, e, Apply(cfg, s, e), j) && TotalsTold(s, e, Apply(cfg, s, e))
  {
    if e.SlotCall? {
      SlotTold(cfg, s, e.slot, e.a);
      InstalledTold(cfg, s, e.slot, SlotNext(cfg, s, e.slot, e.a), e.a, j);
    } else if IsSubmit(e) {
      SubmitTold(cfg, s, e, j);
    } else if IsPool(e) {
      PoolTold(cfg, s, e, j);
    } else {
      UpkeepFrame(s, cfg, e);
    }
  }

  lemma SubmitTold(cfg: Config, s: State, e: Event, j: JobId)
    requires IsSubmit(e) && Enabled(s, cfg, e)
    ensures TalliesTold(cfg, s, e, Submitted(s, cfg, e), j) && TotalsTold(s, e, Submitted(s, cfg, e))
  {
  }

  lemma PoolTold(cfg: Config, s: State, e: Event, j: JobId)
    requires IsPool(e) && Enabled(s, cfg, e)
    ensures TalliesTold(cfg, s, e, Pooled(s, cfg, e), j) && TotalsTold(s, e, Pooled(s, cfg, e))
  {
  }

  lemma {:induction false} RunTold(cfg: Config, s: State, es: seq<Event>, j: JobId)
    requires Shape(cfg, s) && Valid(cfg, s, es)
    ensures var (x, y) := (TallyOf(s.log, j), TallyOf(Run(cfg, s, es).log, j));
      && y.pops == x.pops + Total(cfg, s, es, Pops(j))
      && y.uncounted == x.uncounted + Total(cfg, s, es, Excuses(cfg, j))
      && y.blips == x.blips + Total(cfg, s, es, CounterFailures(j))
    ensures var (x, y) := (s.log, Run(cfg, s, es).log);
      && y.blips == x.blips + Total(cfg, s, es, AllCounterFailures())
      && y.failOpens == x.failOpens + Total(cfg, s, es, FailOpens())
    decreases |es|
  {
    if es == [] {
    } else {
      ShapeKept(cfg, s, es[0]);
      StepTold(cfg, s, es[0], j);
      RunTold(cfg, Apply(cfg, s, es[0]), es[1..], j);
    }
  }

  lemma StepGeminiTold(cfg: Config, s: State, e: Event, p: nat)
    requires Shape(cfg, s) && Enabled(s, cfg, e) && p < |cfg.psv|
    ensures GeminiTold(cfg, s, e, Apply(cfg, s, e), p)
  {
    if e.SlotCall? {
      InstalledGeminiTold(cfg, s, e.slot, SlotNext(cfg, s, e.slot, e.a), e.a, p);
    } else if IsUpkeep(e) {
      UpkeepFrame(s, cfg, e);
    }
  }

  lemma InstalledGeminiTold(cfg: Config, s: State, i: nat, n: Next, a: Answer, p: nat)
    requires Shape(cfg, s) && i < |s.slots| && s.slots[i].Busy? && p < |cfg.psv|
    ensures GeminiTold(cfg, s, SlotCall(i, a), Installed(cfg, s, i, n, a), p)
  {
  }

  lemma {:induction false} RunGeminiTold(cfg: Config, s: State, es: seq<Event>, p: nat)
    requires Shape(cfg, s) && Valid(cfg, s, es) && p < |cfg.psv|
    ensures p < |s.log.gemini| && p < |Run(cfg, s, es).log.gemini|
    ensures Run(cfg, s, es).log.gemini[p].calls == s.log.gemini[p].calls + Total(cfg, s, es, Attempts(cfg, p))
    decreases |es|
  {
    if es == [] {
    } else {
      ShapeKept(cfg, s, es[0]);
      StepGeminiTold(cfg, s, es[0], p);
      RunGeminiTold(cfg, Apply(cfg, s, es[0]), es[1..], p);
    }
  }

  // ---- The bounds, told by the events ----

  /** A job is popped once for its submit, three times for what may be its fault in every hour of its
      counter, and beyond that only when the database was away, a token was refused, Gemini said 429,
      or a counter call failed (twice each). */
  lemma PopsExplained(cfg: Config, s: State, es: seq<Event>, j: JobId)
    requires Init(cfg, s) && Valid(cfg, s, es)
    ensures Total(cfg, s, es, Pops(j)) as real <= 1.0 + 3.0 * (1.0 + Run(cfg, s, es).st.now / 3600.0)
      + (Total(cfg, s, es, Excuses(cfg, j)) + 2 * Total(cfg, s, es, CounterFailures(j))) as real
    ensures NeverExpired(cfg, s, es, j) ==>
      Total(cfg, s, es, Pops(j))
      <= 4 + Total(cfg, s, es, Excuses(cfg, j)) + 2 * Total(cfg, s, es, CounterFailures(j))
  {
    RunTold(cfg, s, es, j);
    BoundedRequeue(cfg, s, es, j);
    if NeverExpired(cfg, s, es, j) {
      BoundedRequeueWithoutExpiry(cfg, s, es, j);
    }
  }

  /** The queue is never longer than 499 plus slots, concurrent submits, submits that could not look,
      and failed counter calls. */
  lemma DepthExplained(cfg: Config, s: State, es: seq<Event>)
    requires Init(cfg, s) && Valid(cfg, s, es)
    ensures |Run(cfg, s, es).st.queue| <= 499 + |cfg.processOf| + cfg.maxSubmits
      + Total(cfg, s, es, FailOpens()) + Total(cfg, s, es, AllCounterFailures())
  {
    RunTold(cfg, s, es, 0);
    QueueDepthBound(cfg, s, es);
  }

  /** One process makes at most four Gemini calls for every token of its burst at boot, and of what the
      highest rate it ever had earns. */
  lemma GeminiCallsExplained(cfg: Config, s: State, es: seq<Event>, p: nat, top: real)
    requires Init(cfg, s) && Valid(cfg, s, es)
    requires p < |cfg.psv| && s.buckets[p].rate <= top && RatesWithin(es, p, top)
    ensures Total(cfg, s, es, Attempts(cfg, p)) as real
         <= Budget(s.buckets[p], top, Run(cfg, s, es).st.now - s.st.now)
  {
    RunGeminiTold(cfg, s, es, p);
    GeminiCallBudget(cfg, s, es, Run(cfg, s, es), p, top);
    FourCalls(Run(cfg, s, es).log.gemini[p].calls, CallsBy(cfg, Run(cfg, s, es), p), s.buckets[p], top, s.st.now,
              Run(cfg, s, es).st.now);
  }

  function Budget(b: TokenBuckets.Bucket, top: real, seconds: real): real {
    4.0 * (b.capacity as real + seconds * top)
  }

  lemma FourCalls(calls: nat, bound: nat, b: TokenBuckets.Bucket, top: real, start: real, now: real)
    requires calls <= bound
    requires bound as real <= CALLS_PER_TOKEN as real * TokenBuckets.Ceiling(b.(rate := top), start, now)
    ensures calls as real <= Budget(b, top, now - start)
  {
  }
}
