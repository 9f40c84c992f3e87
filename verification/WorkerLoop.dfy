/** execute_task_lifecycle of src/worker/loop.py, written as the source is: one call after
    the other, early returns, and exceptions that travel to the outer handlers.

    Before every call the rest of the system may do anything to Postgres, Redis and the
    token bucket: `script` says what each call finds there and how it is answered. The
    contract says that, whatever the script, the calls made are exactly the steps of
    SlotMachine.dfy, from the status check to the end. */
module WorkerLoop {
  import opened Common
  import opened Schemas
  import opened Errors
  import opened JobsTable
  import opened TokenBuckets
  import opened Extractor
  import opened SlotMachine
  import opened StorageClients

  datatype World = World(st: Stores, bucket: Bucket)

  /** What one call finds, and how it is answered. */
  datatype Moment = Moment(found: World, a: Answer)

  type Script = nat -> Moment

  /** One call made: where the machine stands before and after it, and what it leaves. */
  datatype Hop = Hop(before: Pc, left: World, after: Pc)

  function Stepped(env: Env, job: JobId, url: string, pc: Pc, m: Moment): Next
    requires !pc.Done?
  {
    Step(env, m.found.st, m.found.bucket, job, url, pc, m.a)
  }

  ghost predicate Sound(env: Env, job: JobId, url: string, m: Moment, hop: Hop) {
    && !hop.before.Done?
    && Stepped(env, job, url, hop.before, m) == Next(hop.left.st, hop.left.bucket, hop.after)
  }

  ghost predicate Linked(trail: seq<Hop>, n: nat)
    requires 0 < n < |trail|
  {
    trail[n].before == trail[n - 1].after
  }

  /** The hops are the steps of the machine, each in the moment the script gives it. */
  ghost predicate Follows(env: Env, job: JobId, url: string, script: Script, trail: seq<Hop>) {
    && (forall n {:trigger Sound(env, job, url, script(n), trail[n])} :: 0 <= n < |trail| ==>
          Sound(env, job, url, script(n), trail[n]))
    && (forall n :: 0 < n < |trail| ==> Linked(trail, n))
    && (trail != [] ==> trail[0].before == ReadStatus)
  }

  ghost function End(trail: seq<Hop>): Pc {
    if trail == [] then ReadStatus else trail[|trail| - 1].after
  }

  /** The update that the machine makes at `pc`. */
  predicate UpdateAt(pc: Pc, status: JobStatus, changes: Changes)
    ensures UpdateAt(pc, status, changes) ==> IsUpdate(pc)
  {
    match pc
    case MarkProcessing(_) => status == PROCESSING && changes == NO_CHANGES
    case WritePhash(phash) => status == PROCESSING && changes == NO_CHANGES.(phash := Some(phash))
    case Persist(_, _, final) => status == SUCCEEDED && changes == NO_CHANGES.(result := Some(final))
    case FailWrite(permanent, code, message) =>
      status == FailStatus(permanent) && changes == Failure(code, message)
    case _ => false
  }

  /** Where the machine goes from an update. */
  function AfterUpdate(pc: Pc, r: Outcome<()>): Pc
    requires IsUpdate(pc)
  {
    match pc
    case MarkProcessing(known) => if r.Value? then Download(known) else YieldOrRaise(r.error)
    case WritePhash(phash) =>
      if r.Raised? && !r.error.DatabaseUnavailable? then Raise(r.error) else ReadCache(phash)
    case Persist(_, _, _) => if r.Value? then Done else YieldOrRaise(r.error)
    case FailWrite(_, _, _) => Done
  }

  predicate IsUpdate(pc: Pc) {
    pc.MarkProcessing? || pc.WritePhash? || pc.Persist? || pc.FailWrite?
  }

  lemma UpdateStep(env: Env, job: JobId, url: string, pc: Pc, m: Moment, status: JobStatus, changes: Changes)
    requires UpdateAt(pc, status, changes)
    ensures var st := if m.a.Ok? then WithStatus(m.found.st, job, status, changes) else m.found.st;
      var r := if m.a.Ok? then Value(()) else Raised(DbError(m.a));
      Stepped(env, job, url, pc, m) == Next(st, m.found.bucket, AfterUpdate(pc, r))
  {
  }

  function YieldOrRaise(e: Error): Pc {
    if e.DatabaseUnavailable? then YieldTouch(1) else Raise(e)
  }

  // ---- The step of every other call, spelt out ----

  function TouchedStores(st: Stores, job: JobId): Stores {
    st.(rows := Touched(st.rows, job, st.now))
  }

  function AfterPush(rounds: nat): Pc {
    if rounds > 1 then YieldTouch(rounds - 1) else Done
  }

  lemma TouchStep(env: Env, job: JobId, url: string, rounds: nat, m: Moment)
    ensures Stepped(env, job, url, YieldTouch(rounds), m) ==
      if m.a.Ok? then Next(TouchedStores(m.found.st, job), m.found.bucket, YieldPush(rounds))
      else Next(m.found.st, m.found.bucket, Raise(DbError(m.a)))
  {
  }

  lemma PushStep(env: Env, job: JobId, url: string, rounds: nat, m: Moment)
    ensures Stepped(env, job, url, YieldPush(rounds), m) ==
      if m.a.Ok? then Next(Pushed(m.found.st, job, url), m.found.bucket, AfterPush(rounds))
      else Next(m.found.st, m.found.bucket, Raise(RedisError(m.a)))
  {
  }

  /** Where a cache read leads. */
  function AfterLookup(phash: string, r: Outcome<Option<InvoiceResult>>): Pc {
    match r
    case Value(Some(raw)) => Postprocess(phash, raw)
    case Value(None) => Detect(phash)
    case Raised(e) => if e.StorageTransient? then Detect(phash) else Raise(e)
  }

  lemma LookupStep(env: Env, job: JobId, url: string, phash: string, m: Moment)
    ensures var r :=
        if m.a.Drifted? then Value(None)
        else if m.a.Ok? then Value(CacheLookup(m.found.st, CacheKey(phash, env.psv)))
        else Raised(RedisError(m.a));
      Stepped(env, job, url, ReadCache(phash), m) == Next(m.found.st, m.found.bucket, AfterLookup(phash, r))
  {
  }

  lemma CacheStep(env: Env, job: JobId, url: string, phash: string, raw: InvoiceResult, m: Moment)
    ensures Stepped(env, job, url, WriteCache(phash, raw), m) ==
      Next(if m.a.Ok? then CacheStored(m.found.st, CacheKey(phash, env.psv), raw) else m.found.st, m.found.bucket,
           if m.a.Ok? || m.a.Unavailable? then Postprocess(phash, raw) else Raise(RedisError(m.a)))
  {
  }

  /** Where HINCRBY leads, and the expiry of a new counter. */
  function AfterIncrement(r: Outcome<nat>): Pc {
    match r
    case Value(count) => if count == 1 then ExpireCounter else AfterBump(count)
    case Raised(e) => if e.StorageTransient? then BLIP else Raise(e)
  }

  function AfterExpiry(r: Outcome<()>): Pc {
    match r
    case Value(_) => AfterBump(1)
    case Raised(e) => if e.StorageTransient? then BLIP else Raise(e)
  }

  lemma IncrementStep(env: Env, job: JobId, url: string, m: Moment)
    ensures var r := if m.a.Ok? then Value(LiveCount(m.found.st, job) + 1) else Raised(RedisError(m.a));
      Stepped(env, job, url, BumpCounter, m)
      == Next(if m.a.Ok? then Bumped(m.found.st, job) else m.found.st, m.found.bucket, AfterIncrement(r))
  {
  }

  lemma ExpiryStep(env: Env, job: JobId, url: string, m: Moment)
    ensures var r := if m.a.Ok? then Value(()) else Raised(RedisError(m.a));
      Stepped(env, job, url, ExpireCounter, m)
      == Next(if m.a.Ok? then CounterExpires(m.found.st, job) else m.found.st, m.found.bucket, AfterExpiry(r))
  {
  }

  lemma TokenStep(env: Env, job: JobId, url: string, phash: string, m: Moment)
    ensures Stepped(env, job, url, SlotMachine.AcquireToken(phash), m) ==
      Next(m.found.st, Acquired(m.found.bucket, m.found.st.now),
           if Admits(m.found.bucket, m.found.st.now) then Extract(phash) else YieldTouch(1))
  {
  }

  /** The pipeline stages, which touch no store. */
  predicate IsStage(pc: Pc) {
    pc.Download? || pc.Preprocess? || pc.Detect? || pc.Extract? || pc.Postprocess?
  }

  function AfterStage(env: Env, pc: Pc, a: Answer): Pc
    requires IsStage(pc)
  {
    match pc
    case Download(known) =>
      if a.Ok? then Preprocess(known) else if a.Unavailable? then BumpCounter else Raise(PipelineError(a))
    case Preprocess(known) =>
      if !a.Hashed? then Raise(PipelineError(a))
      else if known != Some(a.phash) then WritePhash(a.phash) else ReadCache(a.phash)
    case Detect(phash) =>
      if a.Ok? then SlotMachine.AcquireToken(phash)
      else if a.Unavailable? then BumpCounter else Raise(PipelineError(a))
    case Extract(phash) =>
      if a.Gemini? then AfterExtraction(phash, Retry(a.replies, RETRIES, 0).0) else Raise(PipelineError(a))
    case Postprocess(phash, raw) => AfterPostprocess(phash, raw, env.post(raw))
  }

  function AfterExtraction(phash: string, outcome: Extraction): Pc {
    match outcome
    case Extracted(raw) => WriteCache(phash, raw)
    case RateLimited => YieldTouch(1)
    case Exhausted(_) => BumpCounter
    case Rejected(code) => Raise(PermanentPipeline(code, ""))
    case Escaped => Raise(Foreign(""))
  }

  function AfterPostprocess(phash: string, raw: InvoiceResult, final: Option<InvoiceResult>): Pc {
    if final.Some? then Persist(phash, raw, final.value) else Raise(Foreign("postprocess"))
  }

  lemma StageStep(env: Env, job: JobId, url: string, pc: Pc, m: Moment)
    requires IsStage(pc)
    ensures Stepped(env, job, url, pc, m) == Next(m.found.st, m.found.bucket, AfterStage(env, pc, m.a))
  {
  }

  lemma StatusStep(env: Env, job: JobId, url: string, m: Moment)
    ensures var rows := m.found.st.rows;
      var r := if m.a.Ok? then Value(if job in rows then Some(rows[job]) else None) else Raised(DbError(m.a));
      Stepped(env, job, url, ReadStatus, m) == Next(m.found.st, m.found.bucket, AfterStatus(r))
  {
  }

  /** Where the status check leads. */
  function AfterStatus(r: Outcome<Option<JobRecord>>): Pc {
    match r
    case Value(None) => Done
    case Value(Some(row)) => if row.status.Terminal() then Done else MarkProcessing(row.phash)
    case Raised(e) => if e.DatabaseUnavailable? then YieldTouch(1) else Raise(e)
  }

  lemma FollowsSnoc(env: Env, job: JobId, url: string, script: Script, trail: seq<Hop>, hop: Hop)
    requires Follows(env, job, url, script, trail)
    requires Sound(env, job, url, script(|trail|), hop) && hop.before == End(trail)
    ensures Follows(env, job, url, script, trail + [hop])
  {
    var longer := trail + [hop];
    forall n | 0 < n < |longer| ensures Linked(longer, n) {
      assert n < |trail| ==> Linked(trail, n);
    }
    forall n | 0 <= n < |longer| ensures Sound(env, job, url, script(n), longer[n]) {
      assert n < |trail| ==> Sound(env, job, url, script(n), trail[n]);
    }
  }

  /** The lifecycle of one job, in one slot. */
  class Lifecycle {
    const pg: PostgresClient
    const redis: RedisClient
    const bucket: TokenBucket
    const env: Env
    const script: Script
    const job: JobId
    const url: string
    var now: real
    var k: nat
    ghost var trail: seq<Hop>

    constructor (pg: PostgresClient, redis: RedisClient, bucket: TokenBucket, env: Env, script: Script,
                 job: JobId, url: string)
      ensures this.pg == pg && this.redis == redis && this.bucket == bucket
      ensures this.env == env && this.script == script && this.job == job && this.url == url
      ensures Valid() && trail == []
    {
      this.pg, this.redis, this.bucket, this.env, this.script := pg, redis, bucket, env, script;
      this.job, this.url := job, url;
      now, k, trail := 0.0, 0, [];
    }

    ghost predicate Valid()
      reads this
    {
      k == |trail| && Follows(env, job, url, script, trail)
    }

    /** Where the machine stands. */
    ghost function At(): Pc
      reads this
    {
      End(trail)
    }

    /** Where it goes on an exception, and where otherwise. */
    ghost predicate Ends(e: Option<Error>, pc: Pc)
      reads this
    {
      Valid() && At() == if e.Some? then Raise(e.value) else pc
    }

    ghost function Here(): World
      reads this, pg, redis, bucket
    {
      World(redis.Stores(pg.rows, now), bucket.Value())
    }

    /** Control goes back to the event loop, and everybody else runs. */
    method Await() returns (a: Answer)
      modifies this`k, this`now, pg, redis, bucket
      ensures k == old(k) + 1 && a == script(old(k)).a && Here() == script(old(k)).found
    {
      var m := script(k);
      var st, b := m.found.st, m.found.bucket;
      pg.rows := st.rows;
      redis.queue, redis.counters, redis.cache := st.queue, st.counters, st.cache;
      bucket.rate, bucket.capacity, bucket.tokens, bucket.last := b.rate, b.capacity, b.tokens, b.last;
      now, k := st.now, k + 1;
      return m.a;
    }

    /** Notes the call just made, which is the step to `n`. */
    ghost method Record(n: Next)
      requires k == |trail| + 1 && Follows(env, job, url, script, trail) && !At().Done?
      requires Stepped(env, job, url, At(), script(k - 1)) == n && Here() == World(n.st, n.bucket)
      modifies this`trail
      ensures Valid() && At() == n.pc
    {
      var hop := Hop(At(), Here(), n.pc);
      FollowsSnoc(env, job, url, script, trail, hop);
      trail := trail + [hop];
    }

    // ---- Single calls, with the place where each leaves the machine ----

    method GetJobRecord() returns (r: Outcome<Option<JobRecord>>)
      requires Valid() && At() == ReadStatus
      modifies this, pg, redis, bucket
      ensures Valid() && At() == AfterStatus(r)
    {
      ghost var m := script(k);
      var a := Await();
      r := pg.GetJobRecord(job, a);
      StatusStep(env, job, url, m);
      Record(Next(m.found.st, m.found.bucket, AfterStatus(r)));
    }

    method UpdateJobStatus(status: JobStatus, changes: Changes) returns (r: Outcome<()>)
      requires Valid() && UpdateAt(At(), status, changes)
      modifies this, pg, redis, bucket
      ensures Valid() && At() == AfterUpdate(old(At()), r)
    {
      ghost var m := script(k);
      var a := Await();
      r := pg.UpdateJobStatus(job, status, changes, now, a);
      UpdateStep(env, job, url, At(), m, status, changes);
      ghost var st := if a.Ok? then WithStatus(m.found.st, job, status, changes) else m.found.st;
      Record(Next(st, m.found.bucket, AfterUpdate(At(), r)));
    }

    method TouchUpdatedAt(ghost rounds: nat) returns (r: Outcome<()>)
      requires Valid() && At() == YieldTouch(rounds)
      modifies this, pg, redis, bucket
      ensures Valid() && At() == if r.Value? then YieldPush(rounds) else Raise(r.error)
    {
      ghost var m := script(k);
      var a := Await();
      r := pg.TouchUpdatedAt(job, now, a);
      TouchStep(env, job, url, rounds, m);
      if a.Ok? {
        Record(Next(TouchedStores(m.found.st, job), m.found.bucket, YieldPush(rounds)));
      } else {
        Record(Next(m.found.st, m.found.bucket, Raise(DbError(a))));
      }
    }

    method PushToQueue(ghost rounds: nat) returns (r: Outcome<()>)
      requires Valid() && At() == YieldPush(rounds)
      modifies this, pg, redis, bucket
      ensures Valid() && At() ==
        if r.Raised? then Raise(r.error) else if rounds > 1 then YieldTouch(rounds - 1) else Done
    {
      ghost var m := script(k);
      var a := Await();
      r := redis.PushToQueue(job, url, a);
      PushStep(env, job, url, rounds, m);
      if a.Ok? {
        Record(Next(Pushed(m.found.st, job, url), m.found.bucket, AfterPush(rounds)));
      } else {
        Record(Next(m.found.st, m.found.bucket, Raise(RedisError(a))));
      }
    }

    /** The cache read with its validation; a payload that no longer validates is a miss. */
    method GetCachedInvoice(phash: string) returns (r: Outcome<Option<InvoiceResult>>)
      requires Valid() && At() == ReadCache(phash)
      modifies this, pg, redis, bucket
      ensures Valid() && At() == AfterLookup(phash, r)
    {
      ghost var m := script(k);
      var a := Await();
      if a.Drifted? {
        r := Value(None);
      } else {
        r := redis.GetPhashCache(CacheKey(phash, env.psv), pg.rows, now, a);
      }
      LookupStep(env, job, url, phash, m);
      Record(Next(m.found.st, m.found.bucket, AfterLookup(phash, r)));
    }

    method SetPhashCache(phash: string, raw: InvoiceResult) returns (r: Outcome<()>)
      requires Valid() && At() == WriteCache(phash, raw)
      modifies this, pg, redis, bucket
      ensures Valid() && At() ==
        if r.Raised? && !r.error.StorageTransient? then Raise(r.error) else Postprocess(phash, raw)
    {
      ghost var m := script(k);
      var a := Await();
      r := redis.SetPhashCache(CacheKey(phash, env.psv), raw, pg.rows, now, a);
      CacheStep(env, job, url, phash, raw, m);
      Record(Next(if a.Ok? then CacheStored(m.found.st, CacheKey(phash, env.psv), raw) else m.found.st, m.found.bucket,
                  if r.Raised? && !r.error.StorageTransient? then Raise(r.error) else Postprocess(phash, raw)));
    }

    method IncrementCounter() returns (r: Outcome<nat>)
      requires Valid() && At() == BumpCounter
      modifies this, pg, redis, bucket
      ensures Valid() && At() == AfterIncrement(r)
    {
      ghost var m := script(k);
      var a := Await();
      r := redis.IncrementCounter(job, pg.rows, now, a);
      IncrementStep(env, job, url, m);
      Record(Next(if a.Ok? then Bumped(m.found.st, job) else m.found.st, m.found.bucket, AfterIncrement(r)));
    }

    method SetCounterExpiry() returns (r: Outcome<()>)
      requires Valid() && At() == ExpireCounter
      modifies this, pg, redis, bucket
      ensures Valid() && At() == AfterExpiry(r)
    {
      ghost var m := script(k);
      var a := Await();
      r := redis.ExpireCounter(job, pg.rows, now, a);
      ExpiryStep(env, job, url, m);
      Record(Next(if a.Ok? then CounterExpires(m.found.st, job) else m.found.st, m.found.bucket, AfterExpiry(r)));
    }

    method AcquireToken(phash: string) returns (granted: bool)
      requires Valid() && At() == SlotMachine.AcquireToken(phash)
      modifies this, pg, redis, bucket
      ensures Valid() && At() == if granted then Extract(phash) else YieldTouch(1)
    {
      ghost var m := script(k);
      var a := Await();
      granted := bucket.Acquire(now);
      TokenStep(env, job, url, phash, m);
      ghost var after := if granted then Extract(phash) else YieldTouch(1);
      Record(Next(m.found.st, Acquired(m.found.bucket, m.found.st.now), after));
    }

    /** A pipeline stage: control comes back with its answer, and nothing has been written. */
    method Stage() returns (a: Answer)
      requires Valid() && IsStage(At())
      modifies this, pg, redis, bucket
      ensures Valid() && At() == AfterStage(env, old(At()), a)
    {
      ghost var m := script(k);
      a := Await();
      StageStep(env, job, url, At(), m);
      Record(Next(m.found.st, m.found.bucket, AfterStage(env, At(), a)));
    }

    method DownloadImage(known: Option<string>) returns (a: Answer)
      requires Valid() && At() == Download(known)
      modifies this, pg, redis, bucket
      ensures Valid() && At() == AfterStage(env, Download(known), a)
    {
      a := Stage();
    }

    method PreprocessImage(known: Option<string>) returns (a: Answer)
      requires Valid() && At() == Preprocess(known)
      modifies this, pg, redis, bucket
      ensures Valid() && At() == AfterStage(env, Preprocess(known), a)
    {
      a := Stage();
    }

    method DetectInvoice(phash: string) returns (a: Answer)
      requires Valid() && At() == Detect(phash)
      modifies this, pg, redis, bucket
      ensures Valid() && At() == AfterStage(env, Detect(phash), a)
    {
      a := Stage();
    }

    method CallExtractor(phash: string) returns (a: Answer, outcome: Extraction)
      requires Valid() && At() == Extract(phash)
      modifies this, pg, redis, bucket
      ensures Valid() && At() == if a.Gemini? then AfterExtraction(phash, outcome) else Raise(PipelineError(a))
    {
      a := Stage();
      outcome := Escaped;
      if a.Gemini? {
        var calls, slept;
        outcome, calls, slept := ExtractInvoice(a.replies, GEMINI_BACKOFFS_SECONDS);
      }
    }

    method RunPostprocess(phash: string, raw: InvoiceResult) returns (final: Option<InvoiceResult>)
      requires Valid() && At() == Postprocess(phash, raw)
      modifies this, pg, redis, bucket
      ensures Valid() && At() == AfterPostprocess(phash, raw, final)
    {
      var a := Stage();
      final := env.post(raw);
    }

    // ---- Terminal-state helpers ----

    /** Never raises: a write that fails is logged and forgotten. */
    method Fail(permanent: bool, code: string, message: string)
      requires Valid() && At() == FailWrite(permanent, code, message)
      modifies this, pg, redis, bucket
      ensures Valid() && At() == Done
    {
      var status := if permanent then FAILED_PERMANENT else FAILED_TRANSIENT;
      var r := UpdateJobStatus(status, Failure(code, message));
    }

    /** Touch, then push. The machine counts the pushes still ahead; the source does not. */
    method YieldToQueue(ghost rounds: nat) returns (e: Option<Error>)
      requires Valid() && At() == YieldTouch(rounds)
      modifies this, pg, redis, bucket
      ensures Ends(e, if rounds > 1 then YieldTouch(rounds - 1) else Done)
    {
      var touched := TouchUpdatedAt(rounds);
      if touched.Raised? {
        return Some(touched.error);
      }
      var pushed := PushToQueue(rounds);
      if pushed.Raised? {
        return Some(pushed.error);
      }
      return None;
    }

    /** Requeue cap exceeded. */
    method Orphan()
      requires Valid() && At() == AfterBump(REQUEUE_MAX + 1)
      modifies this, pg, redis, bucket
      ensures Valid() && At() == Done
    {
      Fail(true, "orphan_requeue_cap", "requeue counter exceeded 3");
    }

    /** The two Redis calls of bump_requeue_counter. */
    method BumpRequeueCounter() returns (r: Outcome<nat>)
      requires Valid() && At() == BumpCounter
      modifies this, pg, redis, bucket
      ensures Valid()
      ensures At() == match r
        case Value(count) => AfterBump(count)
        case Raised(e) => if e.StorageTransient? then BLIP else Raise(e)
    {
      r := IncrementCounter();
      if r.Value? && r.value == 1 {
        var expired := SetCounterExpiry();
        if expired.Raised? {
          return Raised(expired.error);
        }
      }
    }

    /** None after orphaning the job, otherwise the caller yields. A failure of the counter
        is answered by a yield of its own, and then the caller yields once more. */
    method BumpOrOrphan() returns (count: Option<nat>, e: Option<Error>)
      requires Valid() && At() == BumpCounter
      modifies this, pg, redis, bucket
      ensures Ends(e, if count.Some? then YieldTouch(1) else Done)
    {
      var bumped := BumpRequeueCounter();
      match bumped {
        case Raised(error) =>
          if error.StorageTransient? {
            e := YieldToQueue(2);
            return Some(0), e;
          }
          return None, Some(error);
        case Value(n) =>
          if n > REQUEUE_MAX {
            Orphan();
            return None, None;
          }
          return Some(n), None;
      }
    }

    /** The clauses that requeue with a count: bump, then yield unless orphaned. */
    method BumpThenYield() returns (e: Option<Error>)
      requires Valid() && At() == BumpCounter
      modifies this, pg, redis, bucket
      ensures Ends(e, Done)
    {
      var count;
      count, e := BumpOrOrphan();
      if e.Some? || count.None? {
        return e;
      }
      e := YieldToQueue(1);
    }

    /** The clauses for permanent errors of a pipeline stage, which fail the job at once. */
    method FailPermanently(error: Error)
      requires Valid() && At() == Raise(error)
      modifies this, pg, redis, bucket
      ensures Valid() && At() == Done
    {
      Fail(IsPermanent(error), CodeOf(error), Describe(error));
    }

    // ---- The stages ----

    /** Stages 0 and 1: status check, mark PROCESSING. None is an early return. */
    method Claim() returns (known: Option<Option<string>>, e: Option<Error>)
      requires Valid() && At() == ReadStatus
      modifies this, pg, redis, bucket
      ensures Ends(e, if known.Some? then Download(known.value) else Done)
    {
      var fetched := GetJobRecord();
      if fetched.Raised? {
        if fetched.error.DatabaseUnavailable? {
          e := YieldToQueue(1);
          return None, e;
        }
        return None, Some(fetched.error);
      }
      if fetched.value.None? || fetched.value.value.status.Terminal() {
        return None, None;
      }
      var phash := fetched.value.value.phash;
      var marked := UpdateJobStatus(PROCESSING, NO_CHANGES);
      if marked.Raised? {
        if marked.error.DatabaseUnavailable? {
          e := YieldToQueue(1);
          return None, e;
        }
        return None, Some(marked.error);
      }
      return Some(phash), None;
    }

    /** Stages 2 and 3: download, preprocess, record a new phash. */
    method Fetch(known: Option<string>) returns (phash: Option<string>, e: Option<Error>)
      requires Valid() && At() == Download(known)
      modifies this, pg, redis, bucket
      ensures Ends(e, if phash.Some? then ReadCache(phash.value) else Done)
    {
      var raw := DownloadImage(known);
      if raw.Permanent? {
        FailPermanently(PipelineError(raw));
        return None, None;
      } else if raw.Unavailable? {
        e := BumpThenYield();
        return None, e;
      } else if !raw.Ok? {
        return None, Some(PipelineError(raw));
      }
      var pp := PreprocessImage(known);
      if pp.Permanent? {
        FailPermanently(PipelineError(pp));
        return None, None;
      } else if !pp.Hashed? {
        return None, Some(PipelineError(pp));
      }
      if known != Some(pp.phash) {
        var written := UpdateJobStatus(PROCESSING, NO_CHANGES.(phash := Some(pp.phash)));
        if written.Raised? && !written.error.DatabaseUnavailable? {
          return None, Some(written.error);
        }
      }
      return Some(pp.phash), None;
    }

    /** Stages 5 and 6: detect, and take a token. */
    method Admit(phash: string) returns (granted: bool, e: Option<Error>)
      requires Valid() && At() == Detect(phash)
      modifies this, pg, redis, bucket
      ensures Ends(e, if granted then Extract(phash) else Done)
    {
      var crop := DetectInvoice(phash);
      if crop.Permanent? {
        FailPermanently(PipelineError(crop));
        return false, None;
      } else if crop.Unavailable? {
        e := BumpThenYield();
        return false, e;
      } else if !crop.Ok? {
        return false, Some(PipelineError(crop));
      }
      granted := AcquireToken(phash);
      if granted {
        return true, None;
      }
      e := YieldToQueue(1);
    }

    /** Stages 5 to 8: on a cache miss, extract and cache the raw invoice. */
    method Extraction(phash: string) returns (raw: Option<InvoiceResult>, e: Option<Error>)
      requires Valid() && At() == Detect(phash)
      modifies this, pg, redis, bucket
      ensures Ends(e, if raw.Some? then Postprocess(phash, raw.value) else Done)
    {
      raw := None;
      var granted;
      granted, e := Admit(phash);
      if e.Some? || !granted {
        return;
      }
      raw, e := CallGemini(phash);
      if e.Some? || raw.None? {
        return None, e;
      }
      var stored := SetPhashCache(phash, raw.value);
      if stored.Raised? && !stored.error.StorageTransient? {
        return None, Some(stored.error);
      }
    }

    /** Stage 7 with its except clauses. */
    method CallGemini(phash: string) returns (raw: Option<InvoiceResult>, e: Option<Error>)
      requires Valid() && At() == Extract(phash)
      modifies this, pg, redis, bucket
      ensures Ends(e, if raw.Some? then WriteCache(phash, raw.value) else Done)
    {
      var a, outcome := CallExtractor(phash);
      if !a.Gemini? {
        if a.Permanent? {
          FailPermanently(PipelineError(a));
          return None, None;
        }
        return None, Some(PipelineError(a));
      }
      match outcome {
        case Extracted(invoice) => return Some(invoice), None;
        case RateLimited => e := YieldToQueue(1);
        case Exhausted(_) => e := BumpThenYield();
        case Rejected(code) => FailPermanently(PermanentPipeline(code, "")); e := None;
        case Escaped => e := Some(Foreign(""));
      }
      raw := None;
    }

    /** Stages 9 and 10: postprocess, also after a cache hit, and persist. */
    method Finish(phash: string, raw: InvoiceResult) returns (e: Option<Error>)
      requires Valid() && At() == Postprocess(phash, raw)
      modifies this, pg, redis, bucket
      ensures Ends(e, Done)
    {
      var final := RunPostprocess(phash, raw);
      if final.None? {
        return Some(Foreign("postprocess"));
      }
      var saved := UpdateJobStatus(SUCCEEDED, NO_CHANGES.(result := final));
      if saved.Raised? {
        if saved.error.DatabaseUnavailable? {
          e := YieldToQueue(1);
          return e;
        }
        return Some(saved.error);
      }
      return None;
    }

    /** The body of the outer try. */
    method RunStages() returns (e: Option<Error>)
      requires Valid() && At() == ReadStatus
      modifies this, pg, redis, bucket
      ensures Ends(e, Done)
    {
      var known;
      known, e := Claim();
      if e.Some? || known.None? {
        return e;
      }
      var phash;
      phash, e := Fetch(known.value);
      if e.Some? || phash.None? {
        return e;
      }
      var cached := GetCachedInvoice(phash.value);
      if cached.Raised? && !cached.error.StorageTransient? {
        return Some(cached.error);
      }
      var raw := if cached.Value? then cached.value else None;
      if raw.None? {
        raw, e := Extraction(phash.value);
        if e.Some? || raw.None? {
          return e;
        }
      }
      e := Finish(phash.value, raw.value);
    }

    /** One job, end to end: whatever the other actors do between its calls, and however the
        calls are answered, the lifecycle takes exactly the machine's steps and ends. */
    method Execute()
      requires Valid() && trail == []
      modifies this, pg, redis, bucket
      ensures Follows(env, job, url, script, trail)
      ensures trail != [] && trail[|trail| - 1].after == Done
    {
      var e := RunStages();
      if e.Some? {
        Fail(IsPermanent(e.value), CodeOf(e.value), Describe(e.value));
      }
    }
  }

  /** A trail is as good as the machine: two trails that follow the same script are equal,
      and none is longer than the machine's rank allows. */
  lemma {:induction false} TrailDetermined(env: Env, job: JobId, url: string, script: Script, t: seq<Hop>, u: seq<Hop>)
    requires Follows(env, job, url, script, t) && Follows(env, job, url, script, u)
    requires End(t).Done? && End(u).Done?
    ensures t == u && |t| <= Rank(ReadStatus)
  {
    TrailRank(env, job, url, script, t, |t|);
    SamePrefix(env, job, url, script, t, u, if |t| <= |u| then |t| else |u|);
    assert t[..|t|] == t && u[..|u|] == u;
    if |t| < |u| {
      NotDoneBefore(env, job, url, script, u, |t|);
    } else if |u| < |t| {
      NotDoneBefore(env, job, url, script, t, |u|);
    }
  }

  /** No trail goes on after Done. */
  lemma NotDoneBefore(env: Env, job: JobId, url: string, script: Script, u: seq<Hop>, n: nat)
    requires Follows(env, job, url, script, u) && n < |u|
    ensures !End(u[..n]).Done?
  {
    assert Sound(env, job, url, script(n), u[n]);
    assert n > 0 ==> Linked(u, n);
  }

  lemma {:induction false} SamePrefix(env: Env, job: JobId, url: string, script: Script, t: seq<Hop>,
                                      u: seq<Hop>, n: nat)
    requires Follows(env, job, url, script, t) && Follows(env, job, url, script, u)
    requires n <= |t| && n <= |u|
    ensures t[..n] == u[..n]
  {
    if n == 0 {
    } else {
      SamePrefix(env, job, url, script, t, u, n - 1);
      assert n > 1 ==> t[n - 2] == t[..n - 1][n - 2] == u[..n - 1][n - 2] == u[n - 2];
      assert n > 1 ==> Linked(t, n - 1) && Linked(u, n - 1);
      assert Sound(env, job, url, script(n - 1), t[n - 1]) && Sound(env, job, url, script(n - 1), u[n - 1]);
      assert t[..n] == t[..n - 1] + [t[n - 1]] && u[..n] == u[..n - 1] + [u[n - 1]];
    }
  }

  lemma {:induction false} TrailRank(env: Env, job: JobId, url: string, script: Script, t: seq<Hop>, n: nat)
    requires Follows(env, job, url, script, t) && n <= |t|
    ensures n + Rank(if n == 0 then ReadStatus else t[n - 1].after) <= Rank(ReadStatus)
  {
    if n == 0 {
    } else {
      TrailRank(env, job, url, script, t, n - 1);
      assert n > 1 ==> Linked(t, n - 1);
      assert Sound(env, job, url, script(n - 1), t[n - 1]);
      var m := script(n - 1);
      StepDescends(env, m.found.st, m.found.bucket, job, url, t[n - 1].before, m.a);
    }
  }
}
