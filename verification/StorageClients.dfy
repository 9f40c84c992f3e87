/** The two storage clients as the service uses them: src/storage/postgres_client.py and
    src/storage/redis_client.py. `now` is the server's clock and `a` how it answers. */
module StorageClients {
  import opened Common
  import opened Schemas
  import opened Errors
  import opened JobsTable
  import opened SlotMachine

  datatype Outcome<+T> = Value(value: T) | Raised(error: Error)

  class PostgresClient {
    var rows: Rows

    constructor ()
      ensures rows == map[]
    {
      rows := map[];
    }

    method CreateJobRecord(job: JobId, url: string, now: real, a: Answer) returns (r: Outcome<()>)
      modifies this
      ensures rows == if r.Value? then Inserted(old(rows), job, url, now) else old(rows)
      ensures r.Value? ==> rows == old(rows)[job := JobRecord(PENDING, None, url, None, None, None, now, now)]
      ensures r.Value? <==> a.Ok? && job !in old(rows)
    {
      if !a.Ok? {
        return Raised(DbError(a));
      }
      if job in rows {
        return Raised(DatabaseUnavailable("duplicate key"));
      }
      rows := rows[job := JobRecord(PENDING, None, url, None, None, None, now, now)];
      return Value(());
    }

    /** Builds the statement and has the database execute it on the row, if there is one. */
    method UpdateJobStatus(job: JobId, status: JobStatus, changes: Changes, now: real, a: Answer)
      returns (r: Outcome<()>)
      modifies this
      ensures rows == if a.Ok? then StatusSet(old(rows), job, status, changes, now) else old(rows)
      ensures a.Ok? && (job in old(rows) ==> RowAllowed(Updated(old(rows)[job], status, changes, now))) ==>
        r == Value(())
      ensures !a.Ok? ==> r == Raised(DbError(a))
      // Field by field; a SUCCEEDED row must have a result.
      ensures rows.Keys == old(rows).Keys && forall j :: j in rows && j != job ==> rows[j] == old(rows)[j]
      ensures job in rows ==> var (row, row') := (old(rows)[job], rows[job]);
        if a.Ok? && (status == SUCCEEDED ==> changes.result.Some? || row.result.Some?) then
          && row'.status == status && row'.updatedAt == now
          && row'.result == (if changes.result.Some? then changes.result else row.result)
          && row'.errorCode == (if changes.errorCode.Some? then changes.errorCode else row.errorCode)
          && row'.errorMessage == (if changes.errorMessage.Some? then changes.errorMessage else row.errorMessage)
          && row'.phash == (if changes.phash.Some? then changes.phash else row.phash)
          && row'.imageUrl == row.imageUrl && row'.createdAt == row.createdAt
        else row' == row
    {
      var before := if job in rows then rows[job] else JobRecord(PENDING, None, "", None, None, None, now, now);
      var sets, params := BuildUpdate(job, status, changes, before, now);
      if !a.Ok? {
        return Raised(DbError(a));
      }
      if job in rows {
        match Executed(rows[job], sets, params, now) {
          case None => return Raised(DatabaseUnavailable("bad statement"));
          case Some(row) =>
            if !RowAllowed(row) {
              return Raised(DatabaseUnavailable("jobs_succeeded_has_result_chk"));
            }
            rows := rows[job := row];
        }
      }
      return Value(());
    }

    method TouchUpdatedAt(job: JobId, now: real, a: Answer) returns (r: Outcome<()>)
      modifies this
      ensures rows == if a.Ok? then Touched(old(rows), job, now) else old(rows)
      ensures rows.Keys == old(rows).Keys && forall j :: j in rows && j != job ==> rows[j] == old(rows)[j]
      ensures job in rows ==> rows[job] == if a.Ok? then old(rows)[job].(updatedAt := now) else old(rows)[job]
      ensures r == if a.Ok? then Value(()) else Raised(DbError(a))
    {
      if !a.Ok? {
        return Raised(DbError(a));
      }
      if job in rows {
        rows := rows[job := rows[job].(updatedAt := now)];
      }
      return Value(());
    }

    method GetJobRecord(job: JobId, a: Answer) returns (r: Outcome<Option<JobRecord>>)
      ensures a.Ok? ==> r == Value(if job in rows then Some(rows[job]) else None)
      ensures !a.Ok? ==> r == Raised(DbError(a))
    {
      if !a.Ok? {
        return Raised(DbError(a));
      }
      return Value(if job in rows then Some(rows[job]) else None);
    }

    /** Every row PROCESSING for more than fifteen minutes without a write, or PENDING for more than
        thirty, once, in whatever order the scan yields. */
    method SelectStaleJobs(now: real, a: Answer) returns (r: Outcome<seq<JobId>>)
      ensures r.Value? <==> a.Ok?
      ensures r.Value? ==>
        && (forall j :: j in r.value <==> j in rows && Stale(rows[j], now))
        && (forall j :: j in r.value <==>
              && j in rows
              && ((rows[j].status == PROCESSING && rows[j].updatedAt < now - 900.0)
                  || (rows[j].status == PENDING && rows[j].createdAt < now - 1800.0)))
        && (forall m, n :: 0 <= m < n < |r.value| ==> r.value[m] != r.value[n])
    {
      if !a.Ok? {
        return Raised(DbError(a));
      }
      var left, found := rows.Keys, [];
      while left != {}
        invariant left <= rows.Keys
        invariant forall j :: j in found <==> j in rows.Keys - left && Stale(rows[j], now)
        invariant forall m, n :: 0 <= m < n < |found| ==> found[m] != found[n]
        decreases left
      {
        var j :| j in left;
        left := left - {j};
        if Stale(rows[j], now) {
          found := found + [j];
        }
      }
      return Value(found);
    }

    method PurgeOldJobRecords(now: real, a: Answer) returns (r: Outcome<nat>)
      modifies this
      ensures rows == if a.Ok? then Purged(old(rows), now) else old(rows)
      ensures r.Value? <==> a.Ok?
      ensures r.Value? ==> r.value == |set j | j in old(rows) && Purgeable(old(rows)[j], now)|
      // What is not terminal, or was written in the last ninety days, stays as it is; all else goes.
      ensures a.Ok? ==> forall j :: j in rows <==>
        && j in old(rows)
        && (old(rows)[j].status in {PENDING, PROCESSING} || old(rows)[j].updatedAt >= now - 7776000.0)
      ensures forall j :: j in rows ==> j in old(rows) && rows[j] == old(rows)[j]
      ensures r.Value? ==> rows.Keys <= old(rows).Keys && r.value == |old(rows).Keys - rows.Keys|
    {
      if !a.Ok? {
        return Raised(DbError(a));
      }
      var deleted := set j | j in rows && Purgeable(rows[j], now);
      rows := Purged(rows, now);
      assert deleted == old(rows).Keys - rows.Keys;
      return Value(|deleted|);
    }
  }

  class RedisClient {
    var queue: seq<Message>
    var counters: map<JobId, Counter>
    var cache: map<CacheKey, CacheEntry>

    constructor ()
      ensures queue == [] && counters == map[] && cache == map[]
    {
      queue, counters, cache := [], map[], map[];
    }

    /** What the clients hold, as the step system sees it. */
    ghost function Stores(rows: Rows, now: real): Stores
      reads this
    {
      SlotMachine.Stores(rows, queue, counters, cache, now)
    }

    method PushToQueue(job: JobId, url: string, a: Answer) returns (r: Outcome<()>)
      modifies this`queue
      ensures queue == if a.Ok? then [Message(job, url)] + old(queue) else old(queue)
      ensures r == if a.Ok? then Value(()) else Raised(RedisError(a))
    {
      if !a.Ok? {
        return Raised(RedisError(a));
      }
      queue := [Message(job, url)] + queue;
      return Value(());
    }

    /** The oldest message; None on an empty queue, and also on a lost connection. Any other
        Redis error is raised. */
    method PopFromQueue(a: Answer) returns (r: Outcome<Option<Message>>)
      modifies this`queue
      ensures a.Ok? && old(queue) != [] ==>
        r.Value? && r.value.Some? && queue + [r.value.value] == old(queue)
      ensures !a.Ok? || old(queue) == [] ==> queue == old(queue)
      ensures a.Unavailable? || (a.Ok? && old(queue) == []) ==> r == Value(None)
      ensures !a.Ok? && !a.Unavailable? ==> r.Raised? && r.error.StorageTransient?
    {
      if !a.Ok? && !a.Unavailable? {
        return Raised(StorageTransient(""));
      }
      if !a.Ok? || queue == [] {
        return Value(None);
      }
      var last := |queue| - 1;
      r := Value(Some(queue[last]));
      queue := queue[..last];
    }

    method GetQueueDepth(a: Answer) returns (r: Outcome<nat>)
      ensures r == if a.Ok? then Value(|queue|) else Raised(RedisError(a))
    {
      return if a.Ok? then Value(|queue|) else Raised(RedisError(a));
    }

    method GetPhashCache(key: CacheKey, ghost rows: Rows, now: real, a: Answer)
      returns (r: Outcome<Option<InvoiceResult>>)
      ensures r == if a.Ok? then Value(CacheLookup(Stores(rows, now), key)) else Raised(RedisError(a))
      ensures a.Ok? ==> r == Value(if key in cache && now < cache[key].expires then Some(cache[key].payload) else None)
    {
      if !a.Ok? {
        return Raised(RedisError(a));
      }
      if key in cache && now < cache[key].expires {
        return Value(Some(cache[key].payload));
      }
      return Value(None);
    }

    method SetPhashCache(key: CacheKey, raw: InvoiceResult, ghost rows: Rows, now: real, a: Answer)
      returns (r: Outcome<()>)
      modifies this`cache
      ensures Stores(rows, now)
           == if a.Ok? then CacheStored(old(Stores(rows, now)), key, raw) else old(Stores(rows, now))
      ensures cache == if a.Ok? then old(cache)[key := CacheEntry(raw, now + 86400.0)] else old(cache)
      ensures r == if a.Ok? then Value(()) else Raised(RedisError(a))
    {
      if !a.Ok? {
        return Raised(RedisError(a));
      }
      cache := cache[key := CacheEntry(raw, now + REDIS_PHASH_TTL_SECONDS)];
      return Value(());
    }

    /** HINCRBY: a key past its expiry starts again at one, without an expiry. */
    method IncrementCounter(job: JobId, ghost rows: Rows, now: real, a: Answer) returns (r: Outcome<nat>)
      modifies this`counters
      ensures Stores(rows, now) == if a.Ok? then Bumped(old(Stores(rows, now)), job) else old(Stores(rows, now))
      ensures r == if a.Ok? then Value(LiveCount(old(Stores(rows, now)), job) + 1) else Raised(RedisError(a))
    {
      if !a.Ok? {
        return Raised(RedisError(a));
      }
      var c := if job in counters then Some(counters[job]) else None;
      if c.Some? && (c.value.expires.None? || now < c.value.expires.value) && c.value.count > 0 {
        counters := counters[job := Counter(counters[job].count + 1, counters[job].expires)];
      } else {
        counters := counters[job := Counter(1, None)];
      }
      return Value(counters[job].count);
    }

    /** EXPIRE: no effect on a key that is gone. */
    method ExpireCounter(job: JobId, ghost rows: Rows, now: real, a: Answer) returns (r: Outcome<()>)
      modifies this`counters
      ensures Stores(rows, now) == if a.Ok? then CounterExpires(old(Stores(rows, now)), job) else old(Stores(rows, now))
      ensures r == if a.Ok? then Value(()) else Raised(RedisError(a))
    {
      if !a.Ok? {
        return Raised(RedisError(a));
      }
      var c := if job in counters then Some(counters[job]) else None;
      if c.Some? && (c.value.expires.None? || now < c.value.expires.value) && c.value.count > 0 {
        counters := counters[job := Counter(counters[job].count, Some(now + REDIS_REQUEUE_TTL_SECONDS))];
      }
      return Value(());
    }
  }
}
