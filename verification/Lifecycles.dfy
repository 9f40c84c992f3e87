/** Whole lifecycles: which of them store a result, which result, and how the others end. */
module Lifecycles {
  import opened Common
  import opened Schemas
  import opened JobsTable
  import opened TokenBuckets
  import opened SlotMachine
  import opened WorkerLoop
  import opened Exits

  /** All calls of one lifecycle, from the status check to the end. */
  ghost predicate Complete(env: Env, job: JobId, url: string, script: Script, trail: seq<Hop>) {
    Follows(env, job, url, script, trail) && trail != [] && End(trail).Done?
  }

  /** Call `n` meets trouble. */
  ghost predicate Meets(env: Env, job: JobId, script: Script, trail: seq<Hop>, n: nat)
    requires n < |trail|
  {
    Trouble(env, script(n).found.st, script(n).found.bucket, job, trail[n].before, script(n).a)
  }

  /** The last call is the write of the result, and it succeeds. */
  ghost predicate Stores(script: Script, trail: seq<Hop>) {
    trail != [] && trail[|trail| - 1].before.Persist? && script(|trail| - 1).a.Ok?
  }

  lemma HopIsStep(env: Env, job: JobId, url: string, script: Script, trail: seq<Hop>, n: nat)
    requires Follows(env, job, url, script, trail) && n < |trail|
    ensures !trail[n].before.Done?
    ensures Stepped(env, job, url, trail[n].before, script(n))
         == Next(trail[n].left.st, trail[n].left.bucket, trail[n].after)
    ensures n > 0 ==> trail[n].before == trail[n - 1].after
    ensures trail[0].before == ReadStatus
  {
    assert Sound(env, job, url, script(n), trail[n]);
    assert n > 0 ==> Linked(trail, n);
  }

  /** Without trouble the machine is underway before every call. */
  lemma {:induction false} Unhindered(env: Env, job: JobId, url: string, script: Script, trail: seq<Hop>, n: nat)
    requires Follows(env, job, url, script, trail) && n < |trail|
    requires forall k :: 0 <= k < n ==> !Meets(env, job, script, trail, k)
    ensures Underway(trail[n].before)
  {
    HopIsStep(env, job, url, script, trail, n);
    if n > 0 {
      Unhindered(env, job, url, script, trail, n - 1);
      HopIsStep(env, job, url, script, trail, n - 1);
      var m := script(n - 1);
      assert !Meets(env, job, script, trail, n - 1);
      if trail[n - 1].before.Persist? {
        DoneExactly(env, m.found.st, m.found.bucket, job, url, trail[n - 1].before, m.a);
      } else {
        GoesOn(env, m.found.st, m.found.bucket, job, url, trail[n - 1].before, m.a);
      }
    }
  }

  /** After trouble it never is again. */
  lemma {:induction false} Hindered(env: Env, job: JobId, url: string, script: Script, trail: seq<Hop>, k: nat, n: nat)
    requires Follows(env, job, url, script, trail) && k < n < |trail| && Meets(env, job, script, trail, k)
    ensures !Underway(trail[n].before)
  {
    HopIsStep(env, job, url, script, trail, n - 1);
    HopIsStep(env, job, url, script, trail, n);
    if n - 1 > k {
      Hindered(env, job, url, script, trail, k, n - 1);
    }
    var m := script(n - 1);
    OffTheWay(env, m.found.st, m.found.bucket, job, url, trail[n - 1].before, m.a);
  }

  /** A lifecycle stores a result exactly if none of its calls meets trouble. */
  lemma StoresExactly(env: Env, job: JobId, url: string, script: Script, trail: seq<Hop>)
    requires Complete(env, job, url, script, trail)
    ensures Stores(script, trail) <==> forall n :: 0 <= n < |trail| ==> !Meets(env, job, script, trail, n)
  {
    var last := |trail| - 1;
    HopIsStep(env, job, url, script, trail, last);
    var m := script(last);
    if forall n :: 0 <= n < |trail| ==> !Meets(env, job, script, trail, n) {
      Unhindered(env, job, url, script, trail, last);
      assert !Meets(env, job, script, trail, last);
      DoneExactly(env, m.found.st, m.found.bucket, job, url, trail[last].before, m.a);
    } else if Stores(script, trail) {
      var k :| 0 <= k < |trail| && Meets(env, job, script, trail, k);
      if k < last {
        Hindered(env, job, url, script, trail, k, last);
      }
    }
  }

  // ---- Which result ----

  /** Call `n` brought the raw invoice: from the cache, or as Gemini's first real answer. */
  ghost predicate Brings(env: Env, script: Script, trail: seq<Hop>, n: nat, raw: InvoiceResult)
    requires n < |trail|
  {
    var (pc, m) := (trail[n].before, script(n));
    || (pc.ReadCache? && m.a.Ok? && CacheLookup(m.found.st, CacheKey(pc.phash, env.psv)) == Some(raw))
    || (pc.Extract? && m.a.Gemini? && DecidedBy(m.a.replies, Extractor.Parsed(raw)))
  }

  lemma {:induction false} RawBrought(env: Env, job: JobId, url: string, script: Script, trail: seq<Hop>, n: nat)
    returns (k: nat)
    requires Follows(env, job, url, script, trail) && n < |trail| && HasRaw(trail[n].before)
    requires forall i :: 0 <= i < n ==> !Meets(env, job, script, trail, i)
    ensures k < n && Brings(env, script, trail, k, trail[n].before.raw)
  {
    HopIsStep(env, job, url, script, trail, n);
    HopIsStep(env, job, url, script, trail, n - 1);
    Unhindered(env, job, url, script, trail, n - 1);
    var (pc, m) := (trail[n - 1].before, script(n - 1));
    assert !Meets(env, job, script, trail, n - 1);
    if pc.Persist? {
      DoneExactly(env, m.found.st, m.found.bucket, job, url, pc, m.a);
      assert false;
    }
    GoesOn(env, m.found.st, m.found.bucket, job, url, pc, m.a);
    if HasRaw(pc) {
      k := RawBrought(env, job, url, script, trail, n - 1);
    } else {
      k := n - 1;
    }
  }

  /** Before the result was stored it was made, from the raw invoice that the write carries along. */
  lemma FinalMade(env: Env, job: JobId, url: string, script: Script, trail: seq<Hop>, n: nat)
    requires Follows(env, job, url, script, trail) && n < |trail| && trail[n].before.Persist?
    requires forall i :: 0 <= i < n ==> !Meets(env, job, script, trail, i)
    ensures env.post(trail[n].before.raw) == Some(trail[n].before.final)
  {
    HopIsStep(env, job, url, script, trail, n);
    HopIsStep(env, job, url, script, trail, n - 1);
    Unhindered(env, job, url, script, trail, n - 1);
    var (pc, m) := (trail[n - 1].before, script(n - 1));
    assert !Meets(env, job, script, trail, n - 1);
    if pc.Persist? {
      DoneExactly(env, m.found.st, m.found.bucket, job, url, pc, m.a);
      assert false;
    }
    GoesOn(env, m.found.st, m.found.bucket, job, url, pc, m.a);
  }

  /** The result that a lifecycle stores is the postprocessed raw invoice that one of its calls brought,
      from the cache under its own prompt version or from Gemini, and the row is SUCCEEDED with it. */
  lemma StoredResult(env: Env, job: JobId, url: string, script: Script, trail: seq<Hop>)
    returns (k: nat, raw: InvoiceResult)
    requires Complete(env, job, url, script, trail) && Stores(script, trail)
    ensures k < |trail| && Brings(env, script, trail, k, raw) && env.post(raw).Some?
    ensures var last := |trail| - 1; var (found, left) := (script(last).found.st.rows, trail[last].left.st.rows);
      job in found && RowAllowed(found[job]) ==>
        job in left && left[job].status == SUCCEEDED && left[job].result == env.post(raw)
  {
    var last := |trail| - 1;
    StoresExactly(env, job, url, script, trail);
    HopIsStep(env, job, url, script, trail, last);
    raw := trail[last].before.raw;
    k := RawBrought(env, job, url, script, trail, last);
    FinalMade(env, job, url, script, trail, last);
    var m := script(last);
    if job in m.found.st.rows && RowAllowed(m.found.st.rows[job]) {
      RowsExactly(env, m.found.st, m.found.bucket, job, url, trail[last].before, m.a);
    }
  }

  /** How a lifecycle ends: it drops a job that nobody waits for, at its first call; it stores a result;
      it puts the job back; or it tries to write a failure. */
  lemma EndsExactly(env: Env, job: JobId, url: string, script: Script, trail: seq<Hop>)
    requires Complete(env, job, url, script, trail)
    ensures var (last, m) := (trail[|trail| - 1].before, script(|trail| - 1));
      || (|trail| == 1 && m.a.Ok? && Unwanted(m.found.st, job))
      || Stores(script, trail)
      || (last.YieldPush? && m.a.Ok? && trail[|trail| - 1].left.st.queue == [Message(job, url)] + m.found.st.queue)
      || last.FailWrite?
  {
    var last := |trail| - 1;
    HopIsStep(env, job, url, script, trail, last);
    var (pc, m) := (trail[last].before, script(last));
    DoneExactly(env, m.found.st, m.found.bucket, job, url, pc, m.a);
    RedisExactly(env, m.found.st, m.found.bucket, job, url, pc, m.a);
    if pc.ReadStatus? && last > 0 {
      HopIsStep(env, job, url, script, trail, last - 1);
      var before := script(last - 1);
      StepDescends(env, before.found.st, before.found.bucket, job, url, trail[last - 1].before, before.a);
    }
  }
}
