/** The jobs table of src/storage/postgres_client.py: its operations as functions on a map of
    rows, and the UPDATE statement that one of them builds. */
module JobsTable {
  import opened Common
  import opened Schemas

  type Rows = map<JobId, JobRecord>

  /** The optional arguments of update_job_status. */
  datatype Changes = Changes(
    result: Option<InvoiceResult>,
    errorCode: Option<string>,
    errorMessage: Option<string>,
    phash: Option<string>)

  const NO_CHANGES := Changes(None, None, None, None)

  function Failure(code: string, message: string): Changes {
    Changes(None, Some(code), Some(message), None)
  }

  function OrOld<T>(given: Option<T>, before: Option<T>): Option<T> {
    if given.Some? then given else before
  }

  /** A row after update_job_status: the supplied fields and no others. */
  function Updated(row: JobRecord, status: JobStatus, changes: Changes, now: real): JobRecord {
    row.(
      status := status,
      updatedAt := now,
      result := OrOld(changes.result, row.result),
      errorCode := OrOld(changes.errorCode, row.errorCode),
      errorMessage := OrOld(changes.errorMessage, row.errorMessage),
      phash := OrOld(changes.phash, row.phash))
  }

  /** The table constraint jobs_succeeded_has_result_chk. */
  predicate RowAllowed(row: JobRecord) {
    row.status == SUCCEEDED ==> row.result.Some?
  }

  function Inserted(rows: Rows, job: JobId, url: string, now: real): Rows {
    rows[job := JobRecord(PENDING, None, url, None, None, None, now, now)]
  }

  /** UPDATE ... WHERE job_id: nothing happens to a job without a row, and a row the
      constraint refuses is left alone. */
  function StatusSet(rows: Rows, job: JobId, status: JobStatus, changes: Changes, now: real): Rows {
    if job in rows && RowAllowed(Updated(rows[job], status, changes, now))
    then rows[job := Updated(rows[job], status, changes, now)]
    else rows
  }

  function Touched(rows: Rows, job: JobId, now: real): Rows {
    if job in rows then rows[job := rows[job].(updatedAt := now)] else rows
  }

  predicate Stale(row: JobRecord, now: real) {
    || (row.status == PROCESSING && row.updatedAt < now - STALE_PROCESSING_SECONDS)
    || (row.status == PENDING && row.createdAt < now - STALE_PENDING_SECONDS)
  }

  predicate Purgeable(row: JobRecord, now: real) {
    row.status.Terminal() && row.updatedAt < now - JOB_RETENTION_SECONDS
  }

  function Purged(rows: Rows, now: real): Rows {
    map job | job in rows && !Purgeable(rows[job], now) :: rows[job]
  }

  // ---- The statement update_job_status builds ----

  datatype Column = STATUS | RESULT | ERROR_CODE | ERROR_MESSAGE | PHASH

  /** One item of the SET list: `column = $k`, or `updated_at = now()`. */
  datatype Assignment = Bind(column: Column, index: nat) | TouchNow

  datatype Param = Id(job: JobId) | Status(status: JobStatus) | Json(invoice: InvoiceResult) | Text(text: string)

  /** A column given its value, if it is of the column's type. */
  function Given(row: JobRecord, column: Column, param: Param): Option<JobRecord> {
    match (column, param)
    case (STATUS, Status(s)) => Some(row.(status := s))
    case (RESULT, Json(v)) => Some(row.(result := Some(v)))
    case (ERROR_CODE, Text(t)) => Some(row.(errorCode := Some(t)))
    case (ERROR_MESSAGE, Text(t)) => Some(row.(errorMessage := Some(t)))
    case (PHASH, Text(t)) => Some(row.(phash := Some(t)))
    case _ => None
  }

  /** One assignment carried out by the database; None is a parameter that is missing or
      of the wrong type. */
  function Assigned(row: JobRecord, item: Assignment, params: seq<Param>, now: real): Option<JobRecord> {
    match item
    case TouchNow => Some(row.(updatedAt := now))
    case Bind(column, index) => if 1 <= index <= |params| then Given(row, column, params[index - 1]) else None
  }

  /** The whole SET list, left to right. */
  function Executed(row: JobRecord, sets: seq<Assignment>, params: seq<Param>, now: real): Option<JobRecord>
    decreases |sets|
  {
    if sets == [] then Some(row)
    else match Executed(row, sets[..|sets| - 1], params, now)
      case None => None
      case Some(done) => Assigned(done, sets[|sets| - 1], params, now)
  }

  lemma {:induction false} MoreParams(row: JobRecord, sets: seq<Assignment>, params: seq<Param>, extra: Param,
                                      now: real)
    requires Executed(row, sets, params, now).Some?
    ensures Executed(row, sets, params + [extra], now) == Executed(row, sets, params, now)
    decreases |sets|
  {
    if sets == [] {
    } else {
      MoreParams(row, sets[..|sets| - 1], params, extra, now);
    }
  }

  /** Appending `column = $k` and the parameter it binds adds that one assignment. */
  lemma BindNext(row: JobRecord, sets: seq<Assignment>, params: seq<Param>, column: Column, param: Param,
                 now: real, done: JobRecord)
    requires Executed(row, sets, params, now) == Some(done)
    ensures Executed(row, sets + [Bind(column, |params| + 1)], params + [param], now) == Given(done, column, param)
  {
    MoreParams(row, sets, params, param, now);
    assert (sets + [Bind(column, |params| + 1)])[..|sets|] == sets;
  }

  lemma StatusFirst(row: JobRecord, job: JobId, status: JobStatus, now: real)
    ensures Executed(row, [Bind(STATUS, 2), TouchNow], [Id(job), Status(status)], now)
         == Some(row.(status := status, updatedAt := now))
  {
    var sets := [Bind(STATUS, 2), TouchNow];
    assert sets[..1] == [Bind(STATUS, 2)] && sets[..1][..0] == [];
    assert Executed(row, sets[..1], [Id(job), Status(status)], now) == Some(row.(status := status));
  }

  /** One optional field: its column, its value, and the next parameter number. */
  method BindOptional(column: Column, value: Option<Param>, sets: seq<Assignment>, params: seq<Param>, idx: nat,
                      ghost row: JobRecord, ghost now: real, ghost done: JobRecord)
    returns (sets': seq<Assignment>, params': seq<Param>, idx': nat)
    requires idx == |params| + 1 && params != [] && Executed(row, sets, params, now) == Some(done)
    ensures idx' == |params'| + 1 && params' != [] && params'[0] == params[0]
    ensures Executed(row, sets', params', now) == if value.None? then Some(done) else Given(done, column, value.value)
  {
    sets', params', idx' := sets, params, idx;
    if value.Some? {
      BindNext(row, sets, params, column, value.value, now, done);
      sets' := sets + [Bind(column, idx)];
      params' := params + [value.value];
      idx' := idx + 1;
    }
  }

  function AsText(text: Option<string>): Option<Param> {
    if text.None? then None else Some(Text(text.value))
  }

  /** Lines 107 to 126: the SET list and its parameters. Executing them on any row is
      `Updated`, so every `$k` binds its own value and no other column is written. */
  method BuildUpdate(job: JobId, status: JobStatus, changes: Changes, ghost row: JobRecord, ghost now: real)
    returns (sets: seq<Assignment>, params: seq<Param>)
    ensures params != [] && params[0] == Id(job)
    ensures Executed(row, sets, params, now) == Some(Updated(row, status, changes, now))
  {
    sets := [Bind(STATUS, 2), TouchNow];
    params := [Id(job), Status(status)];
    var idx := 3;
    StatusFirst(row, job, status, now);
    ghost var done := row.(status := status, updatedAt := now);
    var json := if changes.result.None? then None else Some(Json(changes.result.value));
    sets, params, idx := BindOptional(RESULT, json, sets, params, idx, row, now, done);
    done := done.(result := OrOld(changes.result, done.result));
    sets, params, idx := BindOptional(ERROR_CODE, AsText(changes.errorCode), sets, params, idx, row, now, done);
    done := done.(errorCode := OrOld(changes.errorCode, done.errorCode));
    sets, params, idx := BindOptional(ERROR_MESSAGE, AsText(changes.errorMessage), sets, params, idx, row, now, done);
    done := done.(errorMessage := OrOld(changes.errorMessage, done.errorMessage));
    sets, params, idx := BindOptional(PHASH, AsText(changes.phash), sets, params, idx, row, now, done);
  }
}
