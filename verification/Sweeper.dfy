/** One pass of src/worker/sweeper.py. */
module Sweeper {
  import opened Common
  import opened Schemas
  import opened JobsTable
  import opened SlotMachine
  import opened StorageClients
  import Protocol

  /** The table after a pass over `jobs`, the n-th write being answered by `answers(n)`. */
  function Swept(rows: Rows, jobs: seq<JobId>, status: map<JobId, JobStatus>, now: real, answers: nat -> Answer): Rows
    requires forall j :: j in jobs ==> j in status
  {
    if jobs == [] then rows
    else
      var n := |jobs| - 1;
      var before := Swept(rows, jobs[..n], status, now, answers);
      if answers(n).Ok?
      then StatusSet(before, jobs[n], FAILED_TRANSIENT, Protocol.SweepFailure(status[jobs[n]]), now)
      else before
  }

  /** The row after the sweeper's write, field by field; `seen` is the status in its snapshot. */
  predicate FailedBySweep(row: JobRecord, row': JobRecord, seen: JobStatus, now: real) {
    && row'.status == FAILED_TRANSIENT && row'.updatedAt == now && row'.errorCode == Some("stale_timeout")
    && (seen == PROCESSING ==>
          row'.errorMessage == Some("sweeper: status=" + "PROCESSING" + " age exceeded threshold"))
    && (seen == PENDING ==>
          row'.errorMessage == Some("sweeper: status=" + "PENDING" + " age exceeded threshold"))
    && row'.result == row.result && row'.phash == row.phash
    && row'.imageUrl == row.imageUrl && row'.createdAt == row.createdAt
  }

  lemma SweepWrites(row: JobRecord, seen: JobStatus, now: real)
    ensures FailedBySweep(row, Updated(row, FAILED_TRANSIENT, Protocol.SweepFailure(seen), now), seen, now)
  {
  }

  /** A row is failed if it was selected and its write succeeded, and otherwise untouched. */
  lemma {:induction false} SweptRow(rows: Rows, jobs: seq<JobId>, status: map<JobId, JobStatus>, now: real,
                                    answers: nat -> Answer, j: JobId)
    requires forall j :: j in jobs ==> j in status
    requires forall m, n :: 0 <= m < n < |jobs| ==> jobs[m] != jobs[n]
    requires j in rows
    ensures var after := Swept(rows, jobs, status, now, answers);
      && j in after
      && ((exists n :: 0 <= n < |jobs| && jobs[n] == j && answers(n).Ok?) ==>
            after[j] == Updated(rows[j], FAILED_TRANSIENT, Protocol.SweepFailure(status[j]), now))
      && (!(exists n :: 0 <= n < |jobs| && jobs[n] == j && answers(n).Ok?) ==> after[j] == rows[j])
  {
    if jobs == [] {
    } else {
      var last := |jobs| - 1;
      SweptRow(rows, jobs[..last], status, now, answers, j);
      if jobs[last] == j {
        assert forall n :: 0 <= n < last ==> jobs[..last][n] != j;
      } else {
        forall n | 0 <= n < |jobs| && jobs[n] == j && answers(n).Ok?
          ensures 0 <= n < last && jobs[..last][n] == j && answers(n).Ok?
        {
        }
        forall n | 0 <= n < last && jobs[..last][n] == j && answers(n).Ok?
          ensures jobs[n] == j
        {
        }
      }
    }
  }

  /** Every selected row is counted as recovered, even if its write failed, because _fail
      never raises. The n-th write gets `answers(n)`, the select gets `select`. */
  method SweepOnce(pg: PostgresClient, now: real, select: Answer, answers: nat -> Answer)
    returns (n: Outcome<nat>, ghost jobs: seq<JobId>)
    modifies pg
    ensures n.Value? <==> select.Ok?
    ensures n.Raised? ==> pg.rows == old(pg.rows)
    ensures n.Value? ==>
      && n.value == |jobs|
      && (forall j :: j in jobs <==> j in old(pg.rows) && Stale(old(pg.rows)[j], now))
      && (forall a, b :: 0 <= a < b < |jobs| ==> jobs[a] != jobs[b])
      && pg.rows == Swept(old(pg.rows), jobs, map j | j in old(pg.rows) :: old(pg.rows)[j].status, now, answers)
    // A row that is not overdue is left as it is, and an overdue one is failed or left as it is.
    ensures forall j :: j in old(pg.rows) ==> j in pg.rows && var row := old(pg.rows)[j];
      if (row.status == PROCESSING && row.updatedAt < now - 900.0)
         || (row.status == PENDING && row.createdAt < now - 1800.0)
      then pg.rows[j] == row || FailedBySweep(row, pg.rows[j], row.status, now)
      else pg.rows[j] == row
  {
    jobs := [];
    var selected := pg.SelectStaleJobs(now, select);
    if selected.Raised? {
      return Raised(selected.error), jobs;
    }
    var rows := selected.value;
    var status := map j | j in pg.rows :: pg.rows[j].status;
    jobs := rows;
    var count := 0;
    for i := 0 to |rows|
      invariant count == i
      invariant pg.rows == Swept(old(pg.rows), rows[..i], status, now, answers)
    {
      var failure := Protocol.SweepFailure(status[rows[i]]);
      var failed := pg.UpdateJobStatus(rows[i], FAILED_TRANSIENT, failure, now, answers(i));
      count := count + 1;
      assert rows[..i + 1][..i] == rows[..i];
    }
    assert rows[..|rows|] == rows;
    ghost var before := old(pg.rows);
    forall j | j in before
      ensures j in pg.rows && (j !in rows ==> pg.rows[j] == before[j])
      ensures pg.rows[j] == before[j] || FailedBySweep(before[j], pg.rows[j], before[j].status, now)
    {
      SweptRow(before, rows, status, now, answers, j);
      SweepWrites(before[j], before[j].status, now);
    }
    return Value(count), jobs;
  }
}
