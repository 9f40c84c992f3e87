/** Where results come from: the phash cache never changes what a job's result is. */
module CacheTransparency {
  import opened Common
  import opened Schemas
  import opened JobsTable
  import opened TokenBuckets
  import opened SlotMachine
  import opened Protocol

  type Post = InvoiceResult -> Option<InvoiceResult>

  /** Every cached payload is a raw extraction for its own phash and prompt version. */
  ghost predicate CacheIsRaw(extracted: set<RawResult>, cache: map<CacheKey, CacheEntry>) {
    forall key :: key in cache ==> RawResult(key.psv, key.phash, cache[key].payload) in extracted
  }

  function PhashOf(pc: Pc): Option<string> {
    match pc
    case WritePhash(p) => Some(p)
    case ReadCache(p) => Some(p)
    case Detect(p) => Some(p)
    case AcquireToken(p) => Some(p)
    case Extract(p) => Some(p)
    case WriteCache(p, _) => Some(p)
    case Postprocess(p, _) => Some(p)
    case Persist(p, _, _) => Some(p)
    case _ => None
  }

  function RawOf(pc: Pc): Option<InvoiceResult> {
    match pc
    case WriteCache(_, raw) => Some(raw)
    case Postprocess(_, raw) => Some(raw)
    case Persist(_, raw, _) => Some(raw)
    case _ => None
  }

  /** What a slot carries between the stages of one job: a phash of one of its images, a raw
      extraction for that phash, and at last the postprocessed form of the latter. */
  ghost predicate Carries(post: Post, psv: string, log: Log, job: JobId, pc: Pc) {
    && (PhashOf(pc).Some? ==> (job, PhashOf(pc).value) in log.hashed)
    && (RawOf(pc).Some? ==> PhashOf(pc).Some? && RawResult(psv, PhashOf(pc).value, RawOf(pc).value) in log.extracted)
    && (pc.Persist? ==> post(pc.raw) == Some(pc.final))
  }

  /** `result` is one application of postprocess to a raw extraction that was made for the phash, and
      under the prompt version, with which the slot worked that stored it; and the phash is that of
      an image of job `j`. */
  ghost predicate Derived(post: Post, log: Log, j: JobId, result: InvoiceResult) {
    j in log.stored && exists raw :: Source(post, log, j, raw, result)
  }

  ghost predicate Source(post: Post, log: Log, j: JobId, raw: InvoiceResult, result: InvoiceResult)
    requires j in log.stored
  {
    var CacheKey(phash, psv) := log.stored[j];
    (j, phash) in log.hashed && RawResult(psv, phash, raw) in log.extracted && post(raw) == Some(result)
  }

  ghost predicate ResultsDerived(post: Post, log: Log, rows: Rows) {
    forall j :: j in rows && rows[j].result.Some? ==> Derived(post, log, j, rows[j].result.value)
  }

  /** Nobody works under a prompt version but those of the processes. */
  ghost predicate VersionsKnown(cfg: Config, log: Log) {
    forall j :: j in log.stored ==> log.stored[j].psv in cfg.psv
  }

  ghost predicate Traced(cfg: Config, s: State) {
    && CacheIsRaw(s.log.extracted, s.st.cache)
    && ResultsDerived(cfg.post, s.log, s.st.rows)
    && VersionsKnown(cfg, s.log)
    && (forall i :: 0 <= i < |s.slots| && i < |cfg.processOf| && cfg.processOf[i] < |cfg.psv| && s.slots[i].Busy? ==>
          Carries(cfg.post, cfg.psv[cfg.processOf[i]], s.log, s.slots[i].job, s.slots[i].pc))
  }

  /** A phash comes from preprocessing, a raw invoice from an extraction or the cache. */
  lemma StepSources(env: Env, st: Stores, b: Bucket, job: JobId, url: string, pc: Pc, a: Answer)
    requires !pc.Done?
    ensures var n := Step(env, st, b, job, url, pc, a);
      && (PhashOf(n.pc).Some? ==>
            PhashOf(n.pc) == PhashOf(pc) || (pc.Preprocess? && a.Hashed? && PhashOf(n.pc) == Some(a.phash)))
      && (RawOf(n.pc).Some? ==>
            && PhashOf(n.pc).Some? && PhashOf(n.pc) == PhashOf(pc)
            && (|| RawOf(n.pc) == RawOf(pc)
                || (pc.Extract? && n.pc.WriteCache?)
                || (pc.ReadCache? && CacheLookup(st, CacheKey(pc.phash, env.psv)) == RawOf(n.pc))))
      && (n.pc.Persist? ==> env.post(n.pc.raw) == Some(n.pc.final))
  {
  }

  /** One call keeps all of it, the extraction or hash it makes being logged. */
  lemma StepCarries(env: Env, st: Stores, b: Bucket, job: JobId, url: string, pc: Pc, n: Next, a: Answer,
                    log: Log, process: nat)
    requires !pc.Done? && process < |log.gemini|
    requires CacheIsRaw(log.extracted, st.cache) && Carries(env.post, env.psv, log, job, pc)
    requires n == Step(env, st, b, job, url, pc, a)
    ensures Carries(env.post, env.psv, Logged(log, env.psv, process, job, pc, n.pc, a), job, n.pc)
  {
    StepSources(env, st, b, job, url, pc, a);
  }

  lemma StepCachesRaw(env: Env, st: Stores, b: Bucket, job: JobId, url: string, pc: Pc, a: Answer, log: Log)
    requires !pc.Done?
    requires CacheIsRaw(log.extracted, st.cache) && Carries(env.post, env.psv, log, job, pc)
    ensures CacheIsRaw(log.extracted, Step(env, st, b, job, url, pc, a).st.cache)
  {
  }

  /** A call changes no result but that of its own job, and that by a persist only. */
  ghost predicate StoresResult(before: Rows, after: Rows, job: JobId, pc: Pc, a: Answer) {
    forall j :: j in after ==>
      if pc.Persist? && a.Ok? && j == job then after[j].result == Some(pc.final)
      else j in before && after[j].result == before[j].result
  }

  lemma StepStoresResult(env: Env, st: Stores, b: Bucket, job: JobId, url: string, pc: Pc, a: Answer)
    requires !pc.Done?
    ensures StoresResult(st.rows, Step(env, st, b, job, url, pc, a).st.rows, job, pc, a)
  {
  }

  /** What a slot stores is derived, its place being logged with it. */
  lemma StoredIsDerived(post: Post, psv: string, before: Rows, after: Rows, job: JobId, pc: Pc, pc': Pc, a: Answer,
                        log: Log, process: nat)
    requires process < |log.gemini| && StoresResult(before, after, job, pc, a)
    requires ResultsDerived(post, log, before) && Carries(post, psv, log, job, pc)
    ensures ResultsDerived(post, Logged(log, psv, process, job, pc, pc', a), after)
  {
    var log' := Logged(log, psv, process, job, pc, pc', a);
    forall j | j in after && after[j].result.Some? ensures Derived(post, log', j, after[j].result.value) {
      if pc.Persist? && a.Ok? && j == job {
        assert Source(post, log', job, pc.raw, pc.final);
      } else {
        DerivedStays(post, log, log', j, before[j].result.value);
      }
    }
  }

  /** History only grows, and so does what it vouches for. */
  lemma DerivedStays(post: Post, log: Log, log': Log, j: JobId, result: InvoiceResult)
    requires log.extracted <= log'.extracted && log.hashed <= log'.hashed
    requires j in log.stored ==> j in log'.stored && log'.stored[j] == log.stored[j]
    requires Derived(post, log, j, result)
    ensures Derived(post, log', j, result)
  {
    var raw :| Source(post, log, j, raw, result);
    assert Source(post, log', j, raw, result);
  }

  lemma LogGrows(post: Post, psv: string, log: Log, log': Log, rows: Rows, job: JobId, pc: Pc)
    requires log.extracted <= log'.extracted && log.hashed <= log'.hashed
    ensures Carries(post, psv, log, job, pc) ==> Carries(post, psv, log', job, pc)
    ensures log'.stored == log.stored && ResultsDerived(post, log, rows) ==> ResultsDerived(post, log', rows)
  {
    if log'.stored == log.stored {
      forall j, result | Derived(post, log, j, result) ensures Derived(post, log', j, result) {
        DerivedStays(post, log, log', j, result);
      }
    }
  }

  lemma TracedCall(cfg: Config, s: State, i: nat, a: Answer)
    requires Shape(cfg, s) && i < |s.slots| && s.slots[i].Busy? && Traced(cfg, s)
    ensures Traced(cfg, SlotCalled(cfg, s, i, a))
  {
    var n, p := SlotNext(cfg, s, i, a), cfg.processOf[i];
    var Busy(job, url, pc) := s.slots[i];
    var env := Env(cfg.psv[p], cfg.post);
    StepCarries(env, s.st, s.buckets[p], job, url, pc, n, a, s.log, p);
    StepCachesRaw(env, s.st, s.buckets[p], job, url, pc, a, s.log);
    StepStoresResult(env, s.st, s.buckets[p], job, url, pc, a);
    StoredIsDerived(cfg.post, cfg.psv[p], s.st.rows, n.st.rows, job, pc, n.pc, a, s.log, p);
    TracedInstalled(cfg, s, i, n, a);
  }

  lemma TracedInstalled(cfg: Config, s: State, i: nat, n: Next, a: Answer)
    requires Shape(cfg, s) && i < |s.slots| && s.slots[i].Busy? && Traced(cfg, s)
    requires var t := Installed(cfg, s, i, n, a);
      && CacheIsRaw(s.log.extracted, n.st.cache)
      && ResultsDerived(cfg.post, t.log, n.st.rows)
      && Carries(cfg.post, cfg.psv[cfg.processOf[i]], t.log, s.slots[i].job, n.pc)
    ensures Traced(cfg, Installed(cfg, s, i, n, a))
  {
    var t := Installed(cfg, s, i, n, a);
    forall k | 0 <= k < |t.slots| && t.slots[k].Busy?
      ensures Carries(cfg.post, cfg.psv[cfg.processOf[k]], t.log, t.slots[k].job, t.slots[k].pc)
    {
      if k != i {
        LogGrows(cfg.post, cfg.psv[cfg.processOf[k]], s.log, t.log, n.st.rows, t.slots[k].job, t.slots[k].pc);
      }
    }
  }

  lemma TracedStep(cfg: Config, s: State, e: Event)
    requires Shape(cfg, s) && Enabled(s, cfg, e) && Traced(cfg, s)
    ensures Traced(cfg, Protocol.Apply(cfg, s, e))
  {
    if e.SlotCall? {
      TracedCall(cfg, s, e.slot, e.a);
    } else if IsSubmit(e) {
      TracedSubmit(cfg, s, e);
    } else if IsPool(e) {
      TracedPool(cfg, s, e);
    } else {
      TracedUpkeep(cfg, s, e);
    }
  }

  lemma TracedPool(cfg: Config, s: State, e: Event)
    requires Shape(cfg, s) && IsPool(e) && Enabled(s, cfg, e) && Traced(cfg, s)
    ensures Traced(cfg, Pooled(s, cfg, e))
  {
    var t := Pooled(s, cfg, e);
    LogGrows(cfg.post, "", s.log, t.log, t.st.rows, 0, Done);
    forall k | 0 <= k < |t.slots| && t.slots[k].Busy?
      ensures Carries(cfg.post, cfg.psv[cfg.processOf[k]], t.log, t.slots[k].job, t.slots[k].pc)
    {
      LogGrows(cfg.post, cfg.psv[cfg.processOf[k]], s.log, t.log, t.st.rows, t.slots[k].job, t.slots[k].pc);
    }
  }

  lemma TracedSubmit(cfg: Config, s: State, e: Event)
    requires Shape(cfg, s) && IsSubmit(e) && Enabled(s, cfg, e) && Traced(cfg, s)
    ensures Traced(cfg, Submitted(s, cfg, e))
  {
    var t := Submitted(s, cfg, e);
    LogGrows(cfg.post, "", s.log, t.log, t.st.rows, 0, Done);
    forall k | 0 <= k < |t.slots| && t.slots[k].Busy?
      ensures Carries(cfg.post, cfg.psv[cfg.processOf[k]], t.log, t.slots[k].job, t.slots[k].pc)
    {
      LogGrows(cfg.post, cfg.psv[cfg.processOf[k]], s.log, t.log, t.st.rows, t.slots[k].job, t.slots[k].pc);
    }
  }

  lemma TracedUpkeep(cfg: Config, s: State, e: Event)
    requires IsUpkeep(e) && Enabled(s, cfg, e) && Traced(cfg, s)
    ensures Traced(cfg, Upkept(s, cfg, e))
  {
    UpkeepFrame(s, cfg, e);
  }

  lemma {:induction false} TracedRun(cfg: Config, s: State, es: seq<Event>)
    requires Shape(cfg, s) && Valid(cfg, s, es) && Traced(cfg, s)
    ensures Traced(cfg, Run(cfg, s, es))
    decreases |es|
  {
    if es == [] {
    } else {
      TracedStep(cfg, s, es[0]);
      ShapeKept(cfg, s, es[0]);
      TracedRun(cfg, Protocol.Apply(cfg, s, es[0]), es[1..]);
    }
  }

  /** In every reachable state: a stored result is postprocess applied exactly once to a raw
      extraction, made for the phash and under the prompt version of the slot that stored it, the
      phash being that of one of the job's images; and the cache holds raw extractions only, each
      under the phash and prompt version it was made for. */
  lemma ResultsComeFromRawExtractions(cfg: Config, s0: State, es: seq<Event>, s: State, j: JobId)
    requires Init(cfg, s0) && Valid(cfg, s0, es) && s == Run(cfg, s0, es)
    ensures j in s.st.rows && s.st.rows[j].result.Some? ==> Derived(cfg.post, s.log, j, s.st.rows[j].result.value)
    ensures CacheIsRaw(s.log.extracted, s.st.cache)
    ensures VersionsKnown(cfg, s.log)
  {
    TracedRun(cfg, s0, es);
  }

  /** If what is extracted depends only on prompt version and phash, every result is the one that the
      slot which stored it computes without a cache, from its image under its prompt version. */
  lemma CachedEqualsUncached(cfg: Config, s0: State, es: seq<Event>, s: State, j: JobId,
                             extract: (string, string) -> InvoiceResult)
    requires Init(cfg, s0) && Valid(cfg, s0, es) && s == Run(cfg, s0, es)
    requires forall r :: r in s.log.extracted ==> r.raw == extract(r.psv, r.phash)
    requires j in s.st.rows && s.st.rows[j].result.Some?
    ensures j in s.log.stored
    ensures var CacheKey(phash, psv) := s.log.stored[j];
      && (j, phash) in s.log.hashed && psv in cfg.psv
      && s.st.rows[j].result == cfg.post(extract(psv, phash))
  {
    TracedRun(cfg, s0, es);
    assert Derived(cfg.post, s.log, j, s.st.rows[j].result.value);
    var raw :| Source(cfg.post, s.log, j, raw, s.st.rows[j].result.value);
  }

  /** With one prompt version for all processes, that is the version of every result. */
  lemma OneVersionEqualsUncached(cfg: Config, s0: State, es: seq<Event>, s: State, j: JobId, psv: string,
                                 extract: string -> InvoiceResult)
    requires Init(cfg, s0) && Valid(cfg, s0, es) && s == Run(cfg, s0, es)
    requires forall p :: 0 <= p < |cfg.psv| ==> cfg.psv[p] == psv
    requires forall r :: r in s.log.extracted && r.psv == psv ==> r.raw == extract(r.phash)
    requires j in s.st.rows && s.st.rows[j].result.Some?
    ensures exists phash :: (j, phash) in s.log.hashed && s.st.rows[j].result == cfg.post(extract(phash))
  {
    TracedRun(cfg, s0, es);
    assert Derived(cfg.post, s.log, j, s.st.rows[j].result.value);
    var raw :| Source(cfg.post, s.log, j, raw, s.st.rows[j].result.value);
    var key := s.log.stored[j];
    assert key.psv in cfg.psv && RawResult(key.psv, key.phash, raw) in s.log.extracted;
    assert (j, key.phash) in s.log.hashed && s.st.rows[j].result == cfg.post(extract(key.phash));
  }
}
