/** Where a call of the lifecycle leads, told by what ended it: which exits requeue a job without a
    count, which bump its counter, which fail it and how, and which let it go. */
module Exits {
  import opened Common
  import opened Schemas
  import opened JobsTable
  import opened TokenBuckets
  import opened Extractor
  import opened SlotMachine

  // ---- What Gemini answered ----

  /** A reply after which another attempt is made, if one is left: a server error or a timeout. */
  predicate Passing(r: Response) {
    r.ServerError? || r.TimedOut?
  }

  /** Attempt `k` of the four gets the first reply that is neither. */
  predicate Decides(replies: seq<Response>, k: nat) {
    && k < 4 && !Passing(Reply(replies, k))
    && forall i :: 0 <= i < k ==> Passing(Reply(replies, i))
  }

  ghost predicate DecidedBy(replies: seq<Response>, r: Response) {
    exists k: nat :: Decides(replies, k) && Reply(replies, k) == r
  }

  ghost predicate Undecided(replies: seq<Response>) {
    forall k :: 0 <= k < 4 ==> Passing(Reply(replies, k))
  }

  lemma OneDecides(replies: seq<Response>, j: nat, k: nat)
    requires Decides(replies, j) && Decides(replies, k)
    ensures j == k
  {
  }

  /** The outcome of an extraction is that of the deciding reply, or exhaustion if there is none. */
  lemma ExtractionDecided(replies: seq<Response>) returns (k: nat)
    ensures var outcome := Retry(replies, RETRIES, 0).0;
      if Undecided(replies) then outcome == Exhausted(4)
      else Decides(replies, k) && outcome == Verdict(Reply(replies, k))
  {
    RetryStopsAtFirstDecisiveReply(replies, RETRIES, 0);
    var calls := Retry(replies, RETRIES, 0).1;
    k := calls - 1;
    if Retryable(Reply(replies, k)) {
      assert forall i :: 0 <= i < 4 ==> Retryable(Reply(replies, i));
    } else {
      assert Decides(replies, k);
    }
  }

  /** What each kind of deciding reply means. */
  lemma ExtractionOutcome(replies: seq<Response>)
    ensures var outcome := Retry(replies, RETRIES, 0).0;
      && (outcome.Exhausted? <==> Undecided(replies))
      && (outcome.RateLimited? <==> DecidedBy(replies, ClientError(429)))
      && (outcome.Escaped? <==> DecidedBy(replies, Unexpected))
      && (outcome == Rejected("extractor_invalid_json") <==> DecidedBy(replies, Unparsable))
      && (outcome == Rejected("gemini_client_error")
          <==> exists code: int :: code != 429 && DecidedBy(replies, ClientError(code)))
      && (outcome.Rejected? ==> outcome.errorCode in {"extractor_invalid_json", "gemini_client_error"})
      && (forall raw :: outcome == Extracted(raw) <==> DecidedBy(replies, Parsed(raw)))
  {
    var k := ExtractionDecided(replies);
    if !Undecided(replies) {
      forall r ensures DecidedBy(replies, r) <==> r == Reply(replies, k) {
        if j: nat :| Decides(replies, j) && Reply(replies, j) == r {
          OneDecides(replies, j, k);
        }
      }
    }
  }

  // ---- Yields ----

  /** The token bucket refuses: less than one token once the gap is credited, or no room for one. */
  predicate Refuses(b: Bucket, now: real) {
    b.capacity < 1 || b.tokens + (now - b.last) * b.rate < 1.0
  }

  /** The job is not to blame: the database was away, the token was refused, or Gemini said 429. */
  ghost predicate NotItsFault(st: Stores, b: Bucket, pc: Pc, a: Answer) {
    || (a.Unavailable? && (pc.ReadStatus? || pc.MarkProcessing? || pc.Persist?))
    || (pc.AcquireToken? && Refuses(b, st.now))
    || (pc.Extract? && a.Gemini? && DecidedBy(a.replies, ClientError(429)))
  }

  /** It may be: no download, no detection, or no answer from Gemini in all four attempts. */
  ghost predicate MayBeItsFault(pc: Pc, a: Answer) {
    || (a.Unavailable? && (pc.Download? || pc.Detect?))
    || (pc.Extract? && a.Gemini? && Undecided(a.replies))
  }

  predicate Counting(pc: Pc) {
    pc.BumpCounter? || pc.ExpireCounter?
  }

  lemma RefusesExactly(b: Bucket, now: real)
    ensures Refuses(b, now) <==> !Admits(b, now)
  {
    AdmitsExactly(b, now);
  }

  /** A job is put back without a count exactly if it is not to blame. */
  lemma UncountedExactly(env: Env, st: Stores, b: Bucket, job: JobId, url: string, pc: Pc, a: Answer)
    requires !pc.Done? && !Counting(pc) && !pc.YieldPush?
    ensures Step(env, st, b, job, url, pc, a).pc == YieldTouch(1) <==> NotItsFault(st, b, pc, a)
  {
    if pc.AcquireToken? {
      RefusesExactly(b, st.now);
    } else if pc.Extract? && a.Gemini? {
      ExtractionOutcome(a.replies);
    }
  }

  /** Its counter is bumped exactly if it may be. */
  lemma CountedExactly(env: Env, st: Stores, b: Bucket, job: JobId, url: string, pc: Pc, a: Answer)
    requires !pc.Done?
    ensures Step(env, st, b, job, url, pc, a).pc == BumpCounter <==> MayBeItsFault(pc, a)
  {
    if pc.Extract? && a.Gemini? {
      ExtractionOutcome(a.replies);
    }
  }

  /** A bump adds one to the live count: the first starts the expiry, the second and third put the job
      back, and every later one orphans it. A failed counter call puts it back twice. */
  lemma BumpExactly(env: Env, st: Stores, b: Bucket, job: JobId, url: string, a: Answer)
    ensures var n := Step(env, st, b, job, url, BumpCounter, a);
      && (a.Ok? ==>
            && LiveCount(n.st, job) == LiveCount(st, job) + 1
            && n.pc == (if LiveCount(n.st, job) == 1 then ExpireCounter
                        else if LiveCount(n.st, job) <= 3 then YieldTouch(1)
                        else FailWrite(true, "orphan_requeue_cap", "requeue counter exceeded 3")))
      && (a.Unavailable? ==> n.st == st && n.pc == YieldTouch(2))
    ensures var n := Step(env, st, b, job, url, ExpireCounter, a);
      && (a.Ok? ==> LiveCount(n.st, job) == LiveCount(st, job) && n.pc == YieldTouch(1))
      && (a.Unavailable? ==> n.st == st && n.pc == YieldTouch(2))
  {
  }

  /** The counter itself: a bump starts an absent or expired one at one, without an expiry, and adds one
      to any other; the second call lets it live for an hour from then. Nobody else's counter changes. */
  lemma CounterExactly(env: Env, st: Stores, b: Bucket, job: JobId, url: string, pc: Pc, a: Answer)
    requires !pc.Done?
    ensures var counters := Step(env, st, b, job, url, pc, a).st.counters;
      counters ==
        if pc.BumpCounter? && a.Ok? then
          st.counters[job := if LiveCount(st, job) == 0 then Counter(1, None)
                             else Counter(LiveCount(st, job) + 1, st.counters[job].expires)]
        else if pc.ExpireCounter? && a.Ok? && LiveCount(st, job) > 0 then
          st.counters[job := Counter(LiveCount(st, job), Some(st.now + 3600.0))]
        else st.counters
  {
  }

  /** A job is put back twice exactly if a counter call fails. */
  lemma BlipExactly(env: Env, st: Stores, b: Bucket, job: JobId, url: string, pc: Pc, a: Answer)
    requires Counting(pc)
    ensures Step(env, st, b, job, url, pc, a).pc == YieldTouch(2) <==> a.Unavailable?
  {
  }

  // ---- Failures ----

  /** The job itself is at fault: the pipeline says so, Gemini's first real answer is a client error
      other than 429 or does not parse, or its counter stands at three. */
  ghost predicate Hopeless(st: Stores, job: JobId, pc: Pc, a: Answer) {
    || (a.Permanent? && (pc.Download? || pc.Preprocess? || pc.Detect? || pc.Extract?))
    || (pc.Extract? && a.Gemini? && DecidedBy(a.replies, Unparsable))
    || (pc.Extract? && a.Gemini? && exists code: int :: code != 429 && DecidedBy(a.replies, ClientError(code)))
    || (pc.BumpCounter? && a.Ok? && LiveCount(st, job) >= 3)
  }

  /** An exception reaches the outer handlers. */
  ghost predicate Escapes(env: Env, pc: Pc, a: Answer) {
    match pc
    case YieldTouch(_) => !a.Ok?
    case YieldPush(_) => !a.Ok?
    case Download(_) => !a.Ok? && !a.Unavailable? && !a.Permanent?
    case Preprocess(_) => !a.Hashed? && !a.Permanent?
    case ReadCache(_) => !a.Ok? && !a.Unavailable? && !a.Drifted?
    case Detect(_) => !a.Ok? && !a.Unavailable? && !a.Permanent?
    case AcquireToken(_) => false
    case Extract(_) => if a.Gemini? then DecidedBy(a.replies, Unexpected) else !a.Permanent?
    case Postprocess(_, raw) => env.post(raw).None?
    case FailWrite(_, _, _) => false
    case Done => false
    case _ => !a.Ok? && !a.Unavailable?
  }

  /** A job fails for good exactly if it is hopeless, and for now exactly if an exception escapes. */
  lemma FailsExactly(env: Env, st: Stores, b: Bucket, job: JobId, url: string, pc: Pc, a: Answer)
    requires !pc.Done?
    ensures var next := Step(env, st, b, job, url, pc, a).pc;
      && (next.FailWrite? && next.permanent <==> Hopeless(st, job, pc, a))
      && (next.FailWrite? && !next.permanent <==> Escapes(env, pc, a))
  {
    if pc.Extract? && a.Gemini? {
      ExtractionOutcome(a.replies);
    }
  }

  /** The error code says why, and the message repeats what the exception said. */
  lemma FailureCode(env: Env, st: Stores, b: Bucket, job: JobId, url: string, pc: Pc, a: Answer)
    requires !pc.Done? && Step(env, st, b, job, url, pc, a).pc.FailWrite?
    ensures var FailWrite(_, code, message) := Step(env, st, b, job, url, pc, a).pc;
      && code == (if pc.BumpCounter? && a.Ok? then "orphan_requeue_cap"
                  else if pc.Extract? && a.Gemini? then
                    (if DecidedBy(a.replies, Unparsable) then "extractor_invalid_json"
                     else if DecidedBy(a.replies, Unexpected) then "lifecycle_uncaught" else "gemini_client_error")
                  else if Hopeless(st, job, pc, a) then a.errorCode
                  else if pc.YieldTouch? && a.Unavailable? then "database_unavailable"
                  else if pc.YieldPush? && a.Unavailable? then "storage_transient"
                  else "lifecycle_uncaught")
      && (a.Permanent? && Hopeless(st, job, pc, a) ==> message == a.errorCode + ": " + a.why)
      && (a.Unavailable? && (pc.YieldTouch? || pc.YieldPush?) ==> message == code + ": " + a.why)
      && (a.Uncaught? && !pc.Postprocess? ==> message == a.why)
  {
    FailsExactly(env, st, b, job, url, pc, a);
    if pc.Extract? && a.Gemini? {
      ExtractionOutcome(a.replies);
    }
  }

  // ---- Ends ----

  /** Nobody waits for the job: it has no row, or its row is terminal. */
  predicate Unwanted(st: Stores, job: JobId) {
    job !in st.rows || st.rows[job].status in {SUCCEEDED, FAILED_PERMANENT, FAILED_TRANSIENT}
  }

  lemma DoneExactly(env: Env, st: Stores, b: Bucket, job: JobId, url: string, pc: Pc, a: Answer)
    requires !pc.Done?
    ensures Step(env, st, b, job, url, pc, a).pc.Done? <==>
      || (pc.ReadStatus? && a.Ok? && Unwanted(st, job))
      || (pc.Persist? && a.Ok?)
      || (pc.YieldPush? && a.Ok? && pc.rounds <= 1)
      || pc.FailWrite?
  {
    if pc.Extract? && a.Gemini? {
      ExtractionOutcome(a.replies);
    }
  }

  // ---- The way on ----

  /** The call goes neither well nor nowhere: what takes a job off the way to its result. */
  ghost predicate Trouble(env: Env, st: Stores, b: Bucket, job: JobId, pc: Pc, a: Answer) {
    || NotItsFault(st, b, pc, a) || MayBeItsFault(pc, a) || Hopeless(st, job, pc, a) || Escapes(env, pc, a)
    || (pc.ReadStatus? && a.Ok? && Unwanted(st, job))
  }

  /** The way to a result, from the status check to the last write. */
  predicate Underway(pc: Pc) {
    !Counting(pc) && !pc.YieldTouch? && !pc.YieldPush? && !pc.FailWrite? && !pc.Done?
  }

  /** The stages in the order of the source. */
  function Place(pc: Pc): nat
    requires Underway(pc)
  {
    match pc
    case ReadStatus => 0
    case MarkProcessing(_) => 1
    case Download(_) => 2
    case Preprocess(_) => 3
    case WritePhash(_) => 4
    case ReadCache(_) => 5
    case Detect(_) => 6
    case AcquireToken(_) => 7
    case Extract(_) => 8
    case WriteCache(_, _) => 9
    case Postprocess(_, _) => 10
    case Persist(_, _, _) => 11
  }

  predicate HasPhash(pc: Pc) {
    Underway(pc) && Place(pc) >= 4
  }

  predicate HasRaw(pc: Pc) {
    Underway(pc) && Place(pc) >= 9
  }

  /** Without trouble every stage leads to the next one, but that a known phash is not written and a
      cache hit skips all up to postprocessing. */
  lemma GoesOn(env: Env, st: Stores, b: Bucket, job: JobId, url: string, pc: Pc, a: Answer)
    requires Underway(pc) && !pc.Persist? && !Trouble(env, st, b, job, pc, a)
    ensures var next := Step(env, st, b, job, url, pc, a).pc;
      && Underway(next)
      && Place(next) == (if pc.Preprocess? && pc.known == Some(a.phash) then 5
                         else if pc.ReadCache? && a.Ok? && CacheLookup(st, CacheKey(pc.phash, env.psv)).Some? then 10
                         else Place(pc) + 1)
      && (pc.ReadStatus? ==> next.known == st.rows[job].phash)
      && ((pc.MarkProcessing? || pc.Download?) ==> next.known == pc.known)
      && (pc.Preprocess? ==> next.phash == a.phash)
      && (HasPhash(pc) ==> next.phash == pc.phash)
      && (pc.ReadCache? && next.Postprocess? ==> Some(next.raw) == CacheLookup(st, CacheKey(pc.phash, env.psv)))
      && (pc.Extract? ==> DecidedBy(a.replies, Parsed(next.raw)))
      && (HasRaw(pc) ==> next.raw == pc.raw)
      && (pc.Postprocess? ==> Some(next.final) == env.post(pc.raw))
  {
    if pc.AcquireToken? {
      RefusesExactly(b, st.now);
    } else if pc.Extract? && a.Gemini? {
      ExtractionOutcome(a.replies);
    }
  }

  /** And with trouble off the way for good. */
  lemma OffTheWay(env: Env, st: Stores, b: Bucket, job: JobId, url: string, pc: Pc, a: Answer)
    requires !pc.Done? && (!Underway(pc) || Trouble(env, st, b, job, pc, a))
    ensures !Underway(Step(env, st, b, job, url, pc, a).pc)
  {
    if pc.AcquireToken? {
      RefusesExactly(b, st.now);
    } else if pc.Extract? && a.Gemini? {
      ExtractionOutcome(a.replies);
    }
  }

  // ---- What a call writes ----

  /** The row of the job after a successful call at `pc`, field by field. */
  predicate RowWritten(row: JobRecord, row': JobRecord, pc: Pc, now: real) {
    && row'.imageUrl == row.imageUrl && row'.createdAt == row.createdAt && row'.updatedAt == now
    && row'.status == (match pc
         case MarkProcessing(_) => PROCESSING
         case WritePhash(_) => PROCESSING
         case Persist(_, _, _) => SUCCEEDED
         case FailWrite(permanent, _, _) => if permanent then FAILED_PERMANENT else FAILED_TRANSIENT
         case _ => row.status)
    && row'.phash == (if pc.WritePhash? then Some(pc.phash) else row.phash)
    && row'.result == (if pc.Persist? then Some(pc.final) else row.result)
    && row'.errorCode == (if pc.FailWrite? then Some(pc.code) else row.errorCode)
    && row'.errorMessage == (if pc.FailWrite? then Some(pc.message) else row.errorMessage)
  }

  predicate WritesRow(pc: Pc) {
    pc.MarkProcessing? || pc.WritePhash? || pc.Persist? || pc.FailWrite? || pc.YieldTouch?
  }

  lemma RowsExactly(env: Env, st: Stores, b: Bucket, job: JobId, url: string, pc: Pc, a: Answer)
    requires !pc.Done? && (job in st.rows ==> RowAllowed(st.rows[job]))
    ensures var rows := Step(env, st, b, job, url, pc, a).st.rows;
      && rows.Keys == st.rows.Keys
      && (forall j :: j in rows && j != job ==> rows[j] == st.rows[j])
      && (job in rows ==>
            if a.Ok? && WritesRow(pc) then RowWritten(st.rows[job], rows[job], pc, st.now)
            else rows[job] == st.rows[job])
  {
  }

  /** Redis: the queue gets a message by a push alone, and the cache an entry by a cache write alone. */
  lemma RedisExactly(env: Env, st: Stores, b: Bucket, job: JobId, url: string, pc: Pc, a: Answer)
    requires !pc.Done?
    ensures var n := Step(env, st, b, job, url, pc, a);
      && n.st.queue == (if pc.YieldPush? && a.Ok? then [Message(job, url)] + st.queue else st.queue)
      && n.st.cache == (if pc.WriteCache? && a.Ok?
           then st.cache[CacheKey(pc.phash, env.psv) := CacheEntry(pc.raw, st.now + 86400.0)] else st.cache)
      && n.st.now == st.now
      && (!pc.AcquireToken? ==> n.bucket == b)
  {
  }
}
