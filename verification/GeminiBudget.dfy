/** How many Gemini calls one worker process can make. */
module GeminiBudget {
  import opened Common
  import opened Schemas
  import opened JobsTable
  import opened TokenBuckets
  import opened Extractor
  import opened SlotMachine
  import opened Protocol

  const CALLS_PER_TOKEN: nat := RETRIES + 1

  function Zip(slots: seq<Slot>, processOf: seq<nat>): (z: seq<(Slot, nat)>)
    requires |slots| == |processOf|
    ensures |z| == |slots| && forall i :: 0 <= i < |z| ==> z[i] == (slots[i], processOf[i])
  {
    seq(|slots|, i requires 0 <= i < |slots| => (slots[i], processOf[i]))
  }

  ghost function ExtractingIn(p: nat): ((Slot, nat)) -> nat {
    (x: (Slot, nat)) => One(x.1 == p && x.0.Busy? && x.0.pc.Extract?)
  }

  /** Slots of process `p` that hold a token they have not spent. */
  ghost function Extracting(cfg: Config, s: State, p: nat): nat
    requires Shape(cfg, s)
  {
    SumBy(Zip(s.slots, cfg.processOf), ExtractingIn(p))
  }

  /** Calls made, and all that slots now extracting may have made. */
  ghost function CallsBy(cfg: Config, s: State, p: nat): nat
    requires Shape(cfg, s) && p < |cfg.psv|
  {
    s.log.gemini[p].calls + CALLS_PER_TOKEN * Extracting(cfg, s, p)
  }

  /** Each grant pays for one extraction, spent or still to be spent. */
  ghost predicate CallsPaidFor(cfg: Config, s: State, p: nat)
    requires Shape(cfg, s) && p < |cfg.psv|
  {
    CallsBy(cfg, s, p) <= CALLS_PER_TOKEN * s.log.gemini[p].grants
  }

  lemma SlotReplaced(cfg: Config, s: State, i: nat, x: Slot, p: nat)
    requires Shape(cfg, s) && i < |s.slots| && (x.Busy? ==> !x.pc.Done?)
    ensures Shape(cfg, s.(slots := s.slots[i := x]))
    ensures Extracting(cfg, s.(slots := s.slots[i := x]), p) + ExtractingIn(p)((s.slots[i], cfg.processOf[i]))
         == Extracting(cfg, s, p) + ExtractingIn(p)((x, cfg.processOf[i]))
  {
    var z := Zip(s.slots, cfg.processOf);
    assert Zip(s.slots[i := x], cfg.processOf) == z[i := (x, cfg.processOf[i])];
    SumByUpdate(z, i, (x, cfg.processOf[i]), ExtractingIn(p));
  }

  /** A slot starts to extract only by a granted token, and stops after at most
      CALLS_PER_TOKEN calls. */
  lemma StepPaysCalls(env: Env, st: Stores, b: Bucket, job: JobId, url: string, pc: Pc, a: Answer)
    requires !pc.Done?
    ensures var n := Step(env, st, b, job, url, pc, a);
      && GeminiCalls(pc, a) <= CALLS_PER_TOKEN * One(pc.Extract?)
      && (n.pc.Extract? ==> pc.AcquireToken?)
      && (pc.AcquireToken? && n.pc.Extract? ==> Admits(b, st.now))
      && n.bucket == (if pc.AcquireToken? then Acquired(b, st.now) else b)
      && n.st.now == st.now
  {
    if a.Gemini? {
      RetryStopsAtFirstDecisiveReply(a.replies, RETRIES, 0);
    }
  }

  lemma CallPaysCalls(cfg: Config, s: State, i: nat, n: Next, a: Answer, p: nat)
    requires Shape(cfg, s) && i < |s.slots| && s.slots[i].Busy? && p < |cfg.psv| && CallsPaidFor(cfg, s, p)
    requires GeminiCalls(s.slots[i].pc, a) <= CALLS_PER_TOKEN * One(s.slots[i].pc.Extract?)
    requires n.pc.Extract? ==> s.slots[i].pc.AcquireToken?
    requires Shape(cfg, Installed(cfg, s, i, n, a))
    ensures CallsPaidFor(cfg, Installed(cfg, s, i, n, a), p)
  {
    var x := SlotAfter(s.slots[i].job, s.slots[i].url, n.pc);
    SlotReplaced(cfg, s, i, x, p);
    assert Installed(cfg, s, i, n, a).slots == s.slots[i := x];
  }

  /** Tokens left and granted were there at boot, or earned since at no more than the top rate;
      `b0` is the bucket at boot with that rate. */
  ghost predicate GrantsPaidFor(b0: Bucket, s: State, p: nat) {
    && p < |s.buckets| && p < |s.log.gemini|
    && var b := s.buckets[p];
    && b.rate <= b0.rate && b.Valid() && b.last <= s.st.now
    && s.log.gemini[p].grants as real + b.tokens <= Ceiling(b0, b0.last, b.last)
  }

  lemma GrantPaidFor(b0: Bucket, b: Bucket, now: real, grants: nat)
    requires b.rate <= b0.rate && b.Valid() && b.last <= now
    requires grants as real + b.tokens <= Ceiling(b0, b0.last, b.last)
    ensures var b' := Acquired(b, now);
      && b'.rate <= b0.rate && b'.Valid() && b'.last == now
      && (grants + One(Admits(b, now))) as real + b'.tokens <= Ceiling(b0, b0.last, now)
  {
    RefillKeepsValid(b, now);
    CeilingGrows(b0, b0.last, b.last, now);
    EarnedAtTopRate(now - b.last, b.rate, b0.rate);
  }

  lemma EarnedAtTopRate(gap: real, rate: real, top: real)
    requires 0.0 <= gap && rate <= top
    ensures gap * rate <= gap * top
  {
    MulNonNegative(gap, top - rate);
  }

  lemma CallPaysGrant(cfg: Config, s: State, i: nat, n: Next, a: Answer, p: nat, b0: Bucket)
    requires Shape(cfg, s) && i < |s.slots| && s.slots[i].Busy? && GrantsPaidFor(b0, s, p)
    requires var (b, pc) := (s.buckets[cfg.processOf[i]], s.slots[i].pc);
      && (pc.AcquireToken? && n.pc.Extract? ==> Admits(b, s.st.now))
      && n.bucket == (if pc.AcquireToken? then Acquired(b, s.st.now) else b)
      && n.st.now == s.st.now
    ensures GrantsPaidFor(b0, Installed(cfg, s, i, n, a), p)
  {
    if cfg.processOf[i] == p && s.slots[i].pc.AcquireToken? {
      GrantPaidFor(b0, s.buckets[p], s.st.now, s.log.gemini[p].grants);
    }
  }

  /** No refresh of process `p` finds a rate above `top`. */
  predicate RatesWithin(es: seq<Event>, p: nat, top: real) {
    forall n :: 0 <= n < |es| && es[n].Reconfigure? && es[n].process == p ==> es[n].rate <= top
  }

  lemma BudgetCall(cfg: Config, s: State, i: nat, a: Answer, p: nat, b0: Bucket)
    requires Shape(cfg, s) && i < |s.slots| && s.slots[i].Busy? && p < |cfg.psv|
    requires CallsPaidFor(cfg, s, p) && GrantsPaidFor(b0, s, p)
    requires Shape(cfg, SlotCalled(cfg, s, i, a))
    ensures CallsPaidFor(cfg, SlotCalled(cfg, s, i, a), p) && GrantsPaidFor(b0, SlotCalled(cfg, s, i, a), p)
  {
    var n, q := SlotNext(cfg, s, i, a), cfg.processOf[i];
    StepPaysCalls(Env(cfg.psv[q], cfg.post), s.st, s.buckets[q], s.slots[i].job, s.slots[i].url, s.slots[i].pc, a);
    CallPaysCalls(cfg, s, i, n, a, p);
    CallPaysGrant(cfg, s, i, n, a, p, b0);
  }

  /** A slot that stops while it extracts has made some of the calls it could have made. */
  lemma PoolPaysCalls(cfg: Config, s: State, e: Event, p: nat)
    requires Shape(cfg, s) && IsPool(e) && Enabled(s, cfg, e) && p < |cfg.psv| && CallsPaidFor(cfg, s, p)
    requires Shape(cfg, Pooled(s, cfg, e))
    ensures CallsPaidFor(cfg, Pooled(s, cfg, e), p)
  {
    SlotReplaced(cfg, s, e.slot, Pooled(s, cfg, e).slots[e.slot], p);
  }

  lemma BudgetStep(cfg: Config, s: State, e: Event, p: nat, b0: Bucket)
    requires Shape(cfg, s) && Enabled(s, cfg, e) && p < |cfg.psv| && RatesWithin([e], p, b0.rate)
    requires CallsPaidFor(cfg, s, p) && GrantsPaidFor(b0, s, p)
    requires Shape(cfg, Protocol.Apply(cfg, s, e))
    ensures CallsPaidFor(cfg, Protocol.Apply(cfg, s, e), p) && GrantsPaidFor(b0, Protocol.Apply(cfg, s, e), p)
  {
    if e.SlotCall? {
      BudgetCall(cfg, s, e.slot, e.a, p, b0);
    } else if IsPool(e) {
      PoolPaysCalls(cfg, s, e, p);
    } else if IsUpkeep(e) {
      UpkeepFrame(s, cfg, e);
      assert [e][0] == e;
    }
  }

  lemma {:induction false} BudgetRun(cfg: Config, s: State, es: seq<Event>, p: nat, b0: Bucket)
    requires Shape(cfg, s) && Valid(cfg, s, es) && p < |cfg.psv| && RatesWithin(es, p, b0.rate)
    requires CallsPaidFor(cfg, s, p) && GrantsPaidFor(b0, s, p)
    ensures Shape(cfg, Run(cfg, s, es)) && CallsPaidFor(cfg, Run(cfg, s, es), p)
    ensures GrantsPaidFor(b0, Run(cfg, s, es), p)
    decreases |es|
  {
    if es == [] {
    } else {
      assert RatesWithin([es[0]], p, b0.rate);
      ShapeKept(cfg, s, es[0]);
      BudgetStep(cfg, s, es[0], p, b0);
      BudgetRun(cfg, Protocol.Apply(cfg, s, es[0]), es[1..], p, b0);
    }
  }

  /** By time t a process has made at most (len(backoffs) + 1) * (burst + rate * (t - boot)) Gemini
      calls, where burst is that at boot and rate the highest that was ever in force. This holds over
      all interleavings of its slots and refreshes, even if every slot that is extracting has already
      made all the calls it can make; what the cache answers costs none. */
  lemma GeminiCallBudget(cfg: Config, s0: State, es: seq<Event>, s: State, p: nat, top: real)
    requires Init(cfg, s0) && Valid(cfg, s0, es) && s == Run(cfg, s0, es)
    requires p < |cfg.psv| && s0.buckets[p].rate <= top && RatesWithin(es, p, top)
    ensures Shape(cfg, s)
    ensures CallsBy(cfg, s, p) as real
         <= CALLS_PER_TOKEN as real * Ceiling(s0.buckets[p].(rate := top), s0.st.now, s.st.now)
  {
    var b0 := s0.buckets[p].(rate := top);
    PaidForAtBoot(cfg, s0, p, top);
    BudgetRun(cfg, s0, es, p, b0);
    GrantsBounded(b0, s, p);
    CallsBounded(CallsBy(cfg, s, p), s.log.gemini[p].grants, Ceiling(b0, b0.last, s.st.now));
  }

  lemma PaidForAtBoot(cfg: Config, s0: State, p: nat, top: real)
    requires Init(cfg, s0) && p < |cfg.psv| && s0.buckets[p].rate <= top
    ensures CallsPaidFor(cfg, s0, p) && GrantsPaidFor(s0.buckets[p].(rate := top), s0, p)
  {
    var b0 := s0.buckets[p].(rate := top);
    SumByZero(Zip(s0.slots, cfg.processOf), ExtractingIn(p));
    CeilingAtOnce(b0, b0.last);
  }

  lemma GrantsBounded(b0: Bucket, s: State, p: nat)
    requires GrantsPaidFor(b0, s, p) && 0.0 <= b0.rate
    ensures s.log.gemini[p].grants as real <= Ceiling(b0, b0.last, s.st.now)
  {
    CeilingGrows(b0, b0.last, s.buckets[p].last, s.st.now);
  }

  lemma CallsBounded(calls: nat, grants: nat, ceiling: real)
    requires calls <= CALLS_PER_TOKEN * grants && grants as real <= ceiling
    ensures calls as real <= CALLS_PER_TOKEN as real * ceiling
  {
    assert (CALLS_PER_TOKEN * grants) as real == CALLS_PER_TOKEN as real * grants as real;
  }

  /** With the limits it booted with, refreshed or not, that is its own burst and rate. */
  lemma GeminiCallBudgetFixed(cfg: Config, s0: State, es: seq<Event>, s: State, p: nat)
    requires Init(cfg, s0) && Valid(cfg, s0, es) && s == Run(cfg, s0, es) && p < |cfg.psv|
    requires forall n :: 0 <= n < |es| && es[n].Reconfigure? && es[n].process == p ==>
      es[n].rate == s0.buckets[p].rate && es[n].burst == s0.buckets[p].capacity
    ensures Shape(cfg, s)
    ensures CallsBy(cfg, s, p) as real
         <= CALLS_PER_TOKEN as real * Ceiling(s0.buckets[p], s0.st.now, s.st.now)
  {
    var b0 := s0.buckets[p];
    assert b0.(rate := b0.rate) == b0;
    GeminiCallBudget(cfg, s0, es, s, p, b0.rate);
  }
}
