/** The two receipt endpoints of src/api/routes.py, with src/api/backpressure.py. */
module Routes {
  import opened Common
  import opened Schemas
  import opened Errors
  import opened JobsTable
  import opened SlotMachine
  import opened StorageClients
  import opened Protocol
  import opened Messages
  import opened Terminal
  import opened TerminalRuns
  import opened Exits

  // ---- POST /v1/receipts ----

  /** The status code a submit returns. The three storage calls are made in this order, each
      with its own answer; `allowed` is the verdict of the domain allow-list. */
  method SubmitReceipt(pg: PostgresClient, redis: RedisClient, job: JobId, url: string, allowed: bool, now: real,
                       depthAnswer: Answer, insertAnswer: Answer, pushAnswer: Answer)
    returns (code: int)
    modifies pg, redis`queue
    ensures code in {202, 400, 429, 500, 503}
    ensures code == 429 <==> depthAnswer.Ok? && |old(redis.queue)| >= BACKPRESSURE_QUEUE_REJECT
    ensures code == 400 <==> !allowed && !(depthAnswer.Ok? && |old(redis.queue)| >= BACKPRESSURE_QUEUE_REJECT)
    // Accepted exactly when the row is stored and the message is queued.
    ensures code == 202 ==>
      pg.rows == Inserted(old(pg.rows), job, url, now) && redis.queue == [Message(job, url)] + old(redis.queue)
    ensures code != 202 ==> redis.queue == old(redis.queue)
    // A refused push leaves a PENDING row that no message stands for.
    ensures code == 500 || code == 503 ==>
      var inserted := insertAnswer.Ok? && job !in old(pg.rows);
      pg.rows == if inserted then Inserted(old(pg.rows), job, url, now) else old(pg.rows)
    ensures code == 202 <==>
      && allowed && !(depthAnswer.Ok? && |old(redis.queue)| >= BACKPRESSURE_QUEUE_REJECT)
      && insertAnswer.Ok? && job !in old(pg.rows) && pushAnswer.Ok?
    ensures code == 429 || code == 400 ==> pg.rows == old(pg.rows)
  {
    var depth := redis.GetQueueDepth(depthAnswer);
    if depth.Value? && depth.value >= BACKPRESSURE_QUEUE_REJECT {
      return 429;
    }
    if !allowed {
      return 400;
    }
    var created := pg.CreateJobRecord(job, url, now, insertAnswer);
    if created.Raised? {
      return if created.error.DatabaseUnavailable? then 503 else 500;
    }
    var pushed := redis.PushToQueue(job, url, pushAnswer);
    if pushed.Raised? {
      return if pushed.error.StorageTransient? then 503 else 500;
    }
    return 202;
  }

  // ---- GET /v1/receipts/{job_id} ----

  datatype Response =
    | Receipt(invoice: InvoiceResult)                     // 200
    | EmptyReceipt                                        // 200 without a stored result
    | InFlight(status: JobStatus)                         // 202
    | Failed(code: int, errorCode: string, message: string) // 422, 503
    | NotFound                                            // 404

  function StatusCode(r: Response): int {
    match r
    case Receipt(_) => 200
    case EmptyReceipt => 200
    case InFlight(_) => 202
    case Failed(code, _, _) => code
    case NotFound => 404
  }

  /** `record.error_code or "failed_..."`: an empty string counts as missing. */
  function OrElse(text: Option<string>, default: string): string {
    if text.Some? && text.value != "" then text.value else default
  }

  function GetReceipt(record: Option<JobRecord>): Response {
    match record
    case None => NotFound
    case Some(row) =>
      match row.status
      case SUCCEEDED => if row.result.Some? then Receipt(row.result.value) else EmptyReceipt
      case PENDING => InFlight(PENDING)
      case PROCESSING => InFlight(PROCESSING)
      case FAILED_PERMANENT => Failed(422, OrElse(row.errorCode, "failed_permanent"), OrElse(row.errorMessage, ""))
      case FAILED_TRANSIENT => Failed(503, OrElse(row.errorCode, "failed_transient"), OrElse(row.errorMessage, ""))
  }

  function Lookup(s: State, j: JobId): Option<JobRecord> {
    if j in s.st.rows then Some(s.st.rows[j]) else None
  }

  lemma CoherentAnswer(s: State, j: JobId)
    requires Coherent(s, j)
    ensures !GetReceipt(Lookup(s, j)).EmptyReceipt?
    ensures StatusCode(GetReceipt(Lookup(s, j))) in {200, 422, 503}
       <==> j in s.st.rows && s.st.rows[j].status.Terminal()
  {
  }

  lemma SameAnswer(a: JobRecord, b: JobRecord)
    requires a.status == b.status && (a.status != FAILED_TRANSIENT ==> a == b)
    ensures StatusCode(GetReceipt(Some(a))) == StatusCode(GetReceipt(Some(b)))
    ensures StatusCode(GetReceipt(Some(a))) in {200, 422} ==> GetReceipt(Some(a)) == GetReceipt(Some(b))
  {
  }

  /** What two reads of the row of `j` answer, if a terminal row keeps its status and, unless that is
      FAILED_TRANSIENT, all it holds. */
  lemma AnswersRepeat(s: State, t: State, j: JobId)
    requires Coherent(s, j) && Coherent(t, j)
    requires j in s.st.rows && s.st.rows[j].status.Terminal() && j in t.st.rows ==>
      && t.st.rows[j].status == s.st.rows[j].status
      && (s.st.rows[j].status != FAILED_TRANSIENT ==> t.st.rows[j] == s.st.rows[j])
    ensures var (first, later) := (GetReceipt(Lookup(s, j)), GetReceipt(Lookup(t, j)));
      && !first.EmptyReceipt? && !later.EmptyReceipt?
      && (StatusCode(first) in {200, 422, 503} ==> StatusCode(later) in {StatusCode(first), 404})
      && (StatusCode(first) in {200, 422} && StatusCode(later) != 404 ==> later == first)
  {
    CoherentAnswer(s, j);
    CoherentAnswer(t, j);
    if j in s.st.rows && s.st.rows[j].status.Terminal() && j in t.st.rows {
      SameAnswer(s.st.rows[j], t.st.rows[j]);
    }
  }

  /** What a client sees of a finished job repeats: after an undisturbed run, once a read
      answers 200, 422 or 503, every later successful read answers the same code, or 404
      when the row has been purged; 200 always carries the stored invoice, and a 200 or 422 is the same
      answer in full every time. */
  lemma FinalAnswersRepeat(cfg: Config, s0: State, es: seq<Event>, s: State, fs: seq<Event>, t: State, j: JobId)
    requires Init(cfg, s0) && Valid(cfg, s0, es) && s == Run(cfg, s0, es) && Undisturbed(cfg, s0, es, j)
    requires Shape(cfg, s) && Valid(cfg, s, fs) && t == Run(cfg, s, fs)
    ensures var (first, later) := (GetReceipt(Lookup(s, j)), GetReceipt(Lookup(t, j)));
      && !first.EmptyReceipt? && !later.EmptyReceipt?
      && (StatusCode(first) in {200, 422, 503} ==> StatusCode(later) in {StatusCode(first), 404})
      && (StatusCode(first) in {200, 422} && StatusCode(later) != 404 ==> later == first)
  {
    CoherentRun(cfg, s0, es);
    CoherentRun(cfg, s, fs);
    if j in s.st.rows && s.st.rows[j].status.Terminal() {
      TerminalAbsorbing(cfg, s0, es, s, fs, t, j);
    }
    assert Coherent(s, j) && Coherent(t, j);
    AnswersRepeat(s, t, j);
  }

  // ---- What each answer means ----

  /** `text`, or `default` if there is none to speak of. */
  predicate Says(answer: string, text: Option<string>, default: string) {
    if text.Some? && text.value != "" then answer == text.value else answer == default
  }

  /** 200 is a SUCCEEDED row and carries its result, 202 a row in flight, 422 a FAILED_PERMANENT one and
      503 a FAILED_TRANSIENT one, each with the row's own error, and 404 is no row. */
  lemma AnswerExactly(record: Option<JobRecord>)
    ensures var r := GetReceipt(record); var code := StatusCode(r);
      && code in {200, 202, 404, 422, 503}
      && (code == 404 <==> record.None?)
      && (code == 200 <==> record.Some? && record.value.status == SUCCEEDED)
      && (code == 202 <==> record.Some? && record.value.status in {PENDING, PROCESSING})
      && (code == 422 <==> record.Some? && record.value.status == FAILED_PERMANENT)
      && (code == 503 <==> record.Some? && record.value.status == FAILED_TRANSIENT)
      && (code == 200 && record.value.result.Some? ==> r == Receipt(record.value.result.value))
      && (code == 202 ==> r == InFlight(record.value.status))
      && (code == 422 ==> r.Failed? && Says(r.errorCode, record.value.errorCode, "failed_permanent"))
      && (code == 503 ==> r.Failed? && Says(r.errorCode, record.value.errorCode, "failed_transient"))
      && (code in {422, 503} ==> r.code == code && Says(r.message, record.value.errorMessage, ""))
  {
  }

  lemma RowAfterCall(cfg: Config, s: State, i: nat)
    requires Shape(cfg, s) && i < |s.slots| && s.slots[i].Busy? && WritesRow(s.slots[i].pc)
    requires s.slots[i].job in s.st.rows && Coherent(s, s.slots[i].job)
    ensures var (t, job) := (SlotCalled(cfg, s, i, Ok), s.slots[i].job);
      job in t.st.rows && RowWritten(s.st.rows[job], t.st.rows[job], s.slots[i].pc, s.st.now)
  {
    var p := cfg.processOf[i];
    var Busy(job, url, pc) := s.slots[i];
    RowsExactly(Env(cfg.psv[p], cfg.post), s.st, s.buckets[p], job, url, pc, Ok);
  }

  /** What a client reads after a lifecycle's last write: the result that was stored, or the error code
      and the message that the job was failed with. */
  lemma LastWriteIsAnswered(cfg: Config, s: State, i: nat)
    requires Shape(cfg, s) && i < |s.slots| && s.slots[i].Busy?
    requires s.slots[i].job in s.st.rows && Coherent(s, s.slots[i].job)
    ensures var (r, pc) := (GetReceipt(Lookup(SlotCalled(cfg, s, i, Ok), s.slots[i].job)), s.slots[i].pc);
      && (pc.Persist? ==> r == Receipt(pc.final))
      && (pc.FailWrite? && pc.code != "" ==> r == Failed(if pc.permanent then 422 else 503, pc.code, pc.message))
  {
    if WritesRow(s.slots[i].pc) {
      RowAfterCall(cfg, s, i);
    }
  }
}
