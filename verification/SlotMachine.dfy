/** One job in one worker slot, call by call.

    `Pc` names the call that src/worker/loop.py makes next, `Answer` is how the called
    service responds, and `Step` is the effect of that call together with all the code up
    to the next one. WorkerLoop.dfy shows that the lifecycle written as in the source
    makes exactly these steps; Protocol.dfy interleaves the steps of many slots. */
module SlotMachine {
  import opened Common
  import opened Schemas
  import opened Errors
  import opened JobsTable
  import opened TokenBuckets
  import opened Extractor

  datatype Message = Message(job: JobId, url: string)

  /** A requeue counter; the expiry is set by a second call, and only after the first bump. */
  datatype Counter = Counter(count: nat, expires: Option<real>)

  datatype CacheKey = CacheKey(phash: string, psv: string)

  datatype CacheEntry = CacheEntry(payload: InvoiceResult, expires: real)

  /** Postgres and Redis as the slots share them. LPUSH puts a message at index 0, BRPOP
      takes the last one. */
  datatype Stores = Stores(
    rows: Rows,
    queue: seq<Message>,
    counters: map<JobId, Counter>,
    cache: map<CacheKey, CacheEntry>,
    now: real)

  /** What differs between processes, and the pure pipeline stage that ends every success;
      `post` is None on an invoice for which postprocess raises. */
  datatype Env = Env(psv: string, post: InvoiceResult -> Option<InvoiceResult>)

  datatype Answer =
    | Ok                                             // the call succeeds
    | Hashed(phash: string)                          // preprocessing succeeds
    | Gemini(replies: seq<Response>)                 // the responses to one extraction
    | Drifted                                        // the cached payload no longer validates
    | Unavailable(why: string)                       // the error the call is documented to raise
    | Permanent(errorCode: string, why: string)      // PermanentPipelineError
    | Uncaught(why: string)                          // any other exception

  datatype Pc =
    | ReadStatus
    | MarkProcessing(known: Option<string>)
    | Download(known: Option<string>)
    | Preprocess(known: Option<string>)
    | WritePhash(phash: string)
    | ReadCache(phash: string)
    | Detect(phash: string)
    | AcquireToken(phash: string)
    | Extract(phash: string)
    | WriteCache(phash: string, raw: InvoiceResult)
    | Postprocess(phash: string, raw: InvoiceResult)
    | Persist(phash: string, raw: InvoiceResult, final: InvoiceResult)
    | BumpCounter
    | ExpireCounter
    | YieldTouch(rounds: nat)                        // rounds: pushes still to come
    | YieldPush(rounds: nat)
    | FailWrite(permanent: bool, code: string, message: string)
    | Done

  datatype Next = Next(st: Stores, bucket: Bucket, pc: Pc)

  /** The state in which an exception leaves the lifecycle: its outer handlers write the
      failure, and so do the clauses for permanent errors. */
  function Raise(e: Error): Pc {
    FailWrite(IsPermanent(e), CodeOf(e), Describe(e))
  }

  function FailStatus(permanent: bool): JobStatus {
    if permanent then FAILED_PERMANENT else FAILED_TRANSIENT
  }

  /** The value HINCRBY starts from: an expired key counts as absent. */
  function LiveCount(st: Stores, job: JobId): nat {
    if job in st.counters && (st.counters[job].expires.None? || st.now < st.counters[job].expires.value)
    then st.counters[job].count
    else 0
  }

  function Bumped(st: Stores, job: JobId): Stores {
    var count := LiveCount(st, job) + 1;
    var expires := if count == 1 then None else st.counters[job].expires;
    st.(counters := st.counters[job := Counter(count, expires)])
  }

  function CounterExpires(st: Stores, job: JobId): Stores {
    if LiveCount(st, job) > 0
    then st.(counters := st.counters[job := st.counters[job].(expires := Some(st.now + REDIS_REQUEUE_TTL_SECONDS))])
    else st
  }

  function CacheLookup(st: Stores, key: CacheKey): Option<InvoiceResult> {
    if key in st.cache && st.now < st.cache[key].expires then Some(st.cache[key].payload) else None
  }

  function CacheStored(st: Stores, key: CacheKey, raw: InvoiceResult): Stores {
    st.(cache := st.cache[key := CacheEntry(raw, st.now + REDIS_PHASH_TTL_SECONDS)])
  }

  function Pushed(st: Stores, job: JobId, url: string): Stores {
    st.(queue := [Message(job, url)] + st.queue)
  }

  function WithStatus(st: Stores, job: JobId, status: JobStatus, changes: Changes): Stores {
    st.(rows := StatusSet(st.rows, job, status, changes, st.now))
  }

  /** What becomes of the slot after a failed bump_requeue_counter: the handler inside
      _bump_or_orphan yields, and then its caller yields again. */
  const BLIP := YieldTouch(2)

  /** Where a bump that returned `count` leads. */
  function AfterBump(count: nat): Pc {
    if count > REQUEUE_MAX
    then FailWrite(true, "orphan_requeue_cap", "requeue counter exceeded 3")
    else YieldTouch(1)
  }

  /** The exception behind an answer that is not Ok. Only pipeline calls raise permanent
      errors; what the lifecycle does not expect of a call is foreign to it. */
  function ForeignError(a: Answer): Error {
    Foreign(if a.Uncaught? || a.Unavailable? || a.Permanent? then a.why else "")
  }

  function DbError(a: Answer): Error {
    if a.Unavailable? then DatabaseUnavailable(a.why) else ForeignError(a)
  }

  function RedisError(a: Answer): Error {
    if a.Unavailable? then StorageTransient(a.why) else ForeignError(a)
  }

  function PipelineError(a: Answer): Error {
    if a.Permanent? then PermanentPipeline(a.errorCode, a.why) else ForeignError(a)
  }

  function Step(env: Env, st: Stores, b: Bucket, job: JobId, url: string, pc: Pc, a: Answer): Next
    requires !pc.Done?
  {
    match pc
    case ReadStatus =>
      if a.Ok? then
        if job !in st.rows || st.rows[job].status.Terminal()
        then Next(st, b, Done)
        else Next(st, b, MarkProcessing(st.rows[job].phash))
      else if a.Unavailable? then Next(st, b, YieldTouch(1))
      else Next(st, b, Raise(DbError(a)))
    case MarkProcessing(known) =>
      if a.Ok? then Next(WithStatus(st, job, PROCESSING, NO_CHANGES), b, Download(known))
      else if a.Unavailable? then Next(st, b, YieldTouch(1))
      else Next(st, b, Raise(DbError(a)))
    case Download(known) =>
      if a.Ok? then Next(st, b, Preprocess(known))
      else if a.Unavailable? then Next(st, b, BumpCounter)
      else Next(st, b, Raise(PipelineError(a)))
    case Preprocess(known) =>
      if a.Hashed? then
        Next(st, b, if known != Some(a.phash) then WritePhash(a.phash) else ReadCache(a.phash))
      else Next(st, b, Raise(PipelineError(a)))
    case WritePhash(phash) =>
      if a.Ok? then
        Next(WithStatus(st, job, PROCESSING, NO_CHANGES.(phash := Some(phash))), b, ReadCache(phash))
      else if a.Unavailable? then Next(st, b, ReadCache(phash))
      else Next(st, b, Raise(DbError(a)))
    case ReadCache(phash) =>
      if a.Ok? then
        var hit := CacheLookup(st, CacheKey(phash, env.psv));
        Next(st, b, if hit.Some? then Postprocess(phash, hit.value) else Detect(phash))
      else if a.Unavailable? || a.Drifted? then Next(st, b, Detect(phash))
      else Next(st, b, Raise(RedisError(a)))
    case Detect(phash) =>
      if a.Ok? then Next(st, b, AcquireToken(phash))
      else if a.Unavailable? then Next(st, b, BumpCounter)
      else Next(st, b, Raise(PipelineError(a)))
    case AcquireToken(phash) =>
      Next(st, Acquired(b, st.now), if Admits(b, st.now) then Extract(phash) else YieldTouch(1))
    case Extract(phash) =>
      if a.Gemini? then
        match Retry(a.replies, RETRIES, 0).0
        case Extracted(raw) => Next(st, b, WriteCache(phash, raw))
        case RateLimited => Next(st, b, YieldTouch(1))
        case Exhausted(_) => Next(st, b, BumpCounter)
        case Rejected(code) => Next(st, b, Raise(PermanentPipeline(code, "")))
        case Escaped => Next(st, b, Raise(Foreign("")))
      else Next(st, b, Raise(PipelineError(a)))
    case WriteCache(phash, raw) =>
      if a.Ok? then Next(CacheStored(st, CacheKey(phash, env.psv), raw), b, Postprocess(phash, raw))
      else if a.Unavailable? then Next(st, b, Postprocess(phash, raw))
      else Next(st, b, Raise(RedisError(a)))
    case Postprocess(phash, raw) =>
      var final := env.post(raw);
      Next(st, b, if final.Some? then Persist(phash, raw, final.value) else Raise(Foreign("postprocess")))
    case Persist(phash, raw, final) =>
      if a.Ok? then Next(WithStatus(st, job, SUCCEEDED, NO_CHANGES.(result := Some(final))), b, Done)
      else if a.Unavailable? then Next(st, b, YieldTouch(1))
      else Next(st, b, Raise(DbError(a)))
    case BumpCounter =>
      if a.Ok? then
        var count := LiveCount(st, job) + 1;
        Next(Bumped(st, job), b, if count == 1 then ExpireCounter else AfterBump(count))
      else if a.Unavailable? then Next(st, b, BLIP)
      else Next(st, b, Raise(RedisError(a)))
    case ExpireCounter =>
      if a.Ok? then Next(CounterExpires(st, job), b, AfterBump(1))
      else if a.Unavailable? then Next(st, b, BLIP)
      else Next(st, b, Raise(RedisError(a)))
    case YieldTouch(rounds) =>
      if a.Ok? then Next(st.(rows := Touched(st.rows, job, st.now)), b, YieldPush(rounds))
      else Next(st, b, Raise(DbError(a)))
    case YieldPush(rounds) =>
      if a.Ok? then Next(Pushed(st, job, url), b, if rounds > 1 then YieldTouch(rounds - 1) else Done)
      else Next(st, b, Raise(RedisError(a)))
    case FailWrite(permanent, code, message) =>
      if a.Ok? then Next(WithStatus(st, job, FailStatus(permanent), Failure(code, message)), b, Done)
      else Next(st, b, Done)
  }

  /** A bound on the calls a slot still makes. */
  function Rank(pc: Pc): nat {
    match pc
    case ReadStatus => 21
    case MarkProcessing(_) => 20
    case Download(_) => 19
    case Preprocess(_) => 18
    case WritePhash(_) => 17
    case ReadCache(_) => 16
    case Detect(_) => 15
    case AcquireToken(_) => 14
    case Extract(_) => 13
    case WriteCache(_, _) => 12
    case Postprocess(_, _) => 11
    case Persist(_, _, _) => 10
    case BumpCounter => 9
    case ExpireCounter => 8
    case YieldTouch(rounds) => 2 * rounds + 3
    case YieldPush(rounds) => 2 * rounds + 2
    case FailWrite(_, _, _) => 1
    case Done => 0
  }

  /** Whatever the answers, every call brings the lifecycle closer to its end: one
      execution makes at most Rank(ReadStatus) calls. */
  lemma StepDescends(env: Env, st: Stores, b: Bucket, job: JobId, url: string, pc: Pc, a: Answer)
    requires !pc.Done?
    ensures Rank(Step(env, st, b, job, url, pc, a).pc) < Rank(pc)
  {
  }
}
