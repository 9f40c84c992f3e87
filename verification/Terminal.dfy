/** When a terminal status is final.

    The documentation calls terminal statuses final; the UPDATE behind them is unguarded.
    `Settled` is the exact condition on a state under which the status of a terminal row
    can never change again, and `TerminalAbsorbing` says which runs always reach it. */
module Terminal {
  import opened Common
  import opened Schemas
  import opened JobsTable
  import opened TokenBuckets
  import opened SlotMachine
  import opened Protocol
  import opened Messages

  // ---- What one call may do to the table ----

  /** The status the call at `pc` writes when it succeeds. */
  function Target(pc: Pc): Option<JobStatus> {
    match pc
    case MarkProcessing(_) => Some(PROCESSING)
    case WritePhash(_) => Some(PROCESSING)
    case Persist(_, _, _) => Some(SUCCEEDED)
    case FailWrite(permanent, _, _) => Some(FailStatus(permanent))
    case _ => None
  }

  /** Only the row of the slot's own job, only its status as `pc` says, never a new row. */
  ghost predicate WritesOwnRow(before: Rows, after: Rows, job: JobId, pc: Pc, a: Answer) {
    && after.Keys == before.Keys
    && (forall j :: j in before && j != job ==> after[j] == before[j])
    && (job in before ==>
          && after[job].createdAt == before[job].createdAt
          && after[job].status
             == if a.Ok? && Target(pc).Some? then Target(pc).value else before[job].status)
  }

  lemma StepWritesOwnRow(env: Env, st: Stores, b: Bucket, job: JobId, url: string, pc: Pc, a: Answer)
    requires !pc.Done?
    requires job in st.rows ==> RowAllowed(st.rows[job])
    ensures WritesOwnRow(st.rows, Step(env, st, b, job, url, pc, a).st.rows, job, pc, a)
    ensures var rows := Step(env, st, b, job, url, pc, a).st.rows; job in rows ==> RowAllowed(rows[job])
  {
  }

  // ---- Rows over all runs ----

  /** A row belongs to a submit whose INSERT is done, and success has its result stored. */
  ghost predicate Coherent(s: State, j: JobId) {
    && (j in s.submits ==> j in s.log.used)
    && (j in s.st.rows ==>
          && j in s.log.used
          && (j in s.submits ==> s.submits[j].Stored?)
          && RowAllowed(s.st.rows[j]))
  }

  /** Purged for good: no row, and no submit that could still insert one. */
  ghost predicate Gone(s: State, j: JobId) {
    j in s.log.used && j !in s.st.rows && (j in s.submits ==> s.submits[j].Stored?)
  }

  /** What every event keeps of the row of `j`: nothing returns to PENDING, and a row that
      was purged is not written again. */
  ghost predicate RowMoves(s: State, t: State, j: JobId) {
    && Coherent(t, j)
    && (j in s.st.rows && j in t.st.rows && t.st.rows[j].status == PENDING ==> s.st.rows[j].status == PENDING)
    && (j in s.st.rows && j !in t.st.rows ==> Gone(t, j))
    && (Gone(s, j) ==> Gone(t, j))
  }

  lemma RowMovesCall(cfg: Config, s: State, i: nat, n: Next, a: Answer, j: JobId)
    requires Shape(cfg, s) && i < |s.slots| && s.slots[i].Busy? && Coherent(s, j)
    requires WritesOwnRow(s.st.rows, n.st.rows, s.slots[i].job, s.slots[i].pc, a)
    requires s.slots[i].job in n.st.rows ==> RowAllowed(n.st.rows[s.slots[i].job])
    ensures RowMoves(s, Installed(cfg, s, i, n, a), j)
  {
    assert Installed(cfg, s, i, n, a).log.used == s.log.used;
  }

  lemma RowMovesStep(cfg: Config, s: State, e: Event, j: JobId)
    requires Shape(cfg, s) && Enabled(s, cfg, e) && Coherent(s, j)
    requires e.SlotCall? ==> Coherent(s, s.slots[e.slot].job)
    ensures RowMoves(s, Apply(cfg, s, e), j)
  {
    if e.SlotCall? {
      var i, p := e.slot, cfg.processOf[e.slot];
      var Busy(job, url, pc) := s.slots[i];
      StepWritesOwnRow(Env(cfg.psv[p], cfg.post), s.st, s.buckets[p], job, url, pc, e.a);
      RowMovesCall(cfg, s, i, SlotNext(cfg, s, i, e.a), e.a, j);
    } else if IsSubmit(e) {
      RowMovesSubmit(cfg, s, e, j);
    } else if IsUpkeep(e) {
      RowMovesUpkeep(cfg, s, e, j);
    }
  }

  lemma RowMovesSubmit(cfg: Config, s: State, e: Event, j: JobId)
    requires IsSubmit(e) && Enabled(s, cfg, e) && Coherent(s, j)
    ensures RowMoves(s, Submitted(s, cfg, e), j)
  {
  }

  lemma RowMovesUpkeep(cfg: Config, s: State, e: Event, j: JobId)
    requires IsUpkeep(e) && Enabled(s, cfg, e) && Coherent(s, j)
    ensures RowMoves(s, Upkept(s, cfg, e), j)
  {
  }

  lemma {:induction false} CoherentRun(cfg: Config, s: State, es: seq<Event>)
    requires Shape(cfg, s) && Valid(cfg, s, es) && forall j :: Coherent(s, j)
    ensures forall j :: Coherent(Run(cfg, s, es), j)
    decreases |es|
  {
    if es == [] {
    } else {
      ShapeKept(cfg, s, es[0]);
      CoherentStep(cfg, s, es[0]);
      CoherentRun(cfg, Apply(cfg, s, es[0]), es[1..]);
    }
  }

  /** Table invariants over all runs. In every reachable state a SUCCEEDED row has its
      result; from there on, whatever happens, no row returns to PENDING, and no message
      left over from a purged job brings its row back. */
  lemma TableInvariants(cfg: Config, s0: State, es: seq<Event>, s: State, fs: seq<Event>, t: State, j: JobId)
    requires Init(cfg, s0) && Valid(cfg, s0, es) && s == Run(cfg, s0, es)
    requires Shape(cfg, s) && Valid(cfg, s, fs) && t == Run(cfg, s, fs)
    ensures
      && (j in s.st.rows && s.st.rows[j].status == SUCCEEDED ==> s.st.rows[j].result.Some?)
      && (j in s.st.rows && j in t.st.rows && t.st.rows[j].status == PENDING ==> s.st.rows[j].status == PENDING)
      && (j in s.st.rows && j !in t.st.rows ==> Gone(t, j))
      && (Gone(s, j) ==> j !in t.st.rows)
  {
    CoherentRun(cfg, s0, es);
    assert Coherent(s, j);
    RowMovesRun(cfg, s, fs, j);
  }

  lemma {:induction false} RowMovesRun(cfg: Config, s: State, es: seq<Event>, j: JobId)
    requires Shape(cfg, s) && Valid(cfg, s, es) && forall j :: Coherent(s, j)
    ensures RowMoves(s, Run(cfg, s, es), j)
    decreases |es|
  {
    if es == [] {
    } else {
      ShapeKept(cfg, s, es[0]);
      CoherentStep(cfg, s, es[0]);
      RowMovesStep(cfg, s, es[0], j);
      RowMovesRun(cfg, Apply(cfg, s, es[0]), es[1..], j);
    }
  }

  // ---- The condition ----

  /** A slot at `pc` can, on its own, come to write a status other than FAILED_TRANSIENT. */
  predicate Armed(post: InvoiceResult -> Option<InvoiceResult>, pc: Pc) {
    match pc
    case ReadStatus => false
    case BumpCounter => false
    case ExpireCounter => false
    case YieldTouch(_) => false
    case YieldPush(_) => false
    case FailWrite(permanent, _, _) => permanent
    case WriteCache(_, raw) => post(raw).Some?
    case Postprocess(_, raw) => post(raw).Some?
    case Done => false
    case _ => true
  }

  ghost function Bumping(j: JobId): Slot -> nat {
    (x: Slot) => One(x.Busy? && x.job == j && x.pc.BumpCounter?)
  }

  /** No slot about to bump the counter of `j` can be the one that exceeds the cap. */
  ghost predicate CountSafe(s: State, j: JobId) {
    var bumping := SumBy(s.slots, Bumping(j));
    bumping == 0 || LiveCount(s.st, j) + bumping <= REQUEUE_MAX
  }

  predicate Unarmed(post: InvoiceResult -> Option<InvoiceResult>, slots: seq<Slot>, j: JobId) {
    forall i :: 0 <= i < |slots| && slots[i].Busy? && slots[i].job == j ==> !Armed(post, slots[i].pc)
  }

  predicate InSnapshot(s: State, j: JobId) {
    exists k, n :: 0 <= k < |s.sweeps| && 0 <= n < |s.sweeps[k]| && s.sweeps[k][n].job == j
  }

  /** FAILED_TRANSIENT: no slot is past the status check, except on its way back to the
      queue. SUCCEEDED and FAILED_PERMANENT: nothing at all stands for the job any more,
      but for slots about to write FAILED_PERMANENT once more. */
  ghost predicate Settled(cfg: Config, s: State, j: JobId)
    requires j in s.st.rows
  {
    if s.st.rows[j].status == FAILED_TRANSIENT then
      Unarmed(cfg.post, s.slots, j) && CountSafe(s, j)
    else
      && (forall i :: 0 <= i < |s.st.queue| ==> s.st.queue[i].job != j)
      && j !in s.submits
      && !InSnapshot(s, j)
      && (forall i :: 0 <= i < |s.slots| && s.slots[i].Busy? && s.slots[i].job == j ==>
            s.slots[i].pc.FailWrite? && s.slots[i].pc.permanent && s.st.rows[j].status == FAILED_PERMANENT)
  }

  /** The status of `j` is what it is in `s`, and settled, or the row is gone for good. */
  ghost predicate Final(cfg: Config, s: State, j: JobId, status: JobStatus) {
    && Coherent(s, j)
    && (if j in s.st.rows then s.st.rows[j].status == status && Settled(cfg, s, j) else Gone(s, j))
  }

  // ---- Settled states stay settled ----

  /** After the status check of a terminal row, the way leads back or out. */
  lemma StepStaysUnarmed(env: Env, st: Stores, b: Bucket, job: JobId, url: string, pc: Pc, a: Answer)
    requires !pc.Done? && !Armed(env.post, pc)
    requires job in st.rows && st.rows[job].status.Terminal()
    requires pc.BumpCounter? ==> LiveCount(st, job) + 1 <= REQUEUE_MAX
    ensures var n := Step(env, st, b, job, url, pc, a);
      && !Armed(env.post, n.pc) && !n.pc.BumpCounter?
      && LiveCount(n.st, job) <= LiveCount(st, job) + One(pc.BumpCounter?)
      && (Target(pc).Some? ==> Target(pc).value == FAILED_TRANSIENT)
  {
  }

  lemma StepLeavesOthersCounters(env: Env, st: Stores, b: Bucket, job: JobId, url: string, pc: Pc, a: Answer, j: JobId)
    requires !pc.Done? && j != job
    ensures LiveCount(Step(env, st, b, job, url, pc, a).st, j) == LiveCount(st, j)
  {
  }

  /** The slots of job `j` are as before, and nothing new stands for it. */
  ghost predicate SameForJob(s: State, t: State, j: JobId) {
    && |t.slots| == |s.slots|
    && (forall k :: 0 <= k < |s.slots| && t.slots[k].Busy? && t.slots[k].job == j ==> t.slots[k] == s.slots[k])
    && (forall k :: 0 <= k < |t.st.queue| && t.st.queue[k].job == j ==> t.st.queue[k] in s.st.queue)
    && SumBy(t.slots, Bumping(j)) == SumBy(s.slots, Bumping(j))
    && t.sweeps == s.sweeps && t.submits == s.submits && t.log.used == s.log.used
    && LiveCount(t.st, j) == LiveCount(s.st, j)
  }

  lemma FinalIfSame(cfg: Config, s: State, t: State, j: JobId, status: JobStatus)
    requires Final(cfg, s, j, status) && SameForJob(s, t, j)
    requires (j in t.st.rows <==> j in s.st.rows) && (j in s.st.rows ==> t.st.rows[j] == s.st.rows[j])
    ensures Final(cfg, t, j, status)
  {
  }

  lemma OtherCallSame(cfg: Config, s: State, i: nat, n: Next, a: Answer, j: JobId)
    requires Shape(cfg, s) && i < |s.slots| && s.slots[i].Busy? && s.slots[i].job != j
    requires PushesAtMostOne(s, i, n) && LiveCount(n.st, j) == LiveCount(s.st, j)
    ensures SameForJob(s, Installed(cfg, s, i, n, a), j)
  {
    SumByUpdate(s.slots, i, SlotAfter(s.slots[i].job, s.slots[i].url, n.pc), Bumping(j));
  }

  lemma FinalOtherCall(cfg: Config, s: State, i: nat, n: Next, a: Answer, j: JobId, status: JobStatus)
    requires Shape(cfg, s) && i < |s.slots| && s.slots[i].Busy? && s.slots[i].job != j
    requires Final(cfg, s, j, status)
    requires WritesOwnRow(s.st.rows, n.st.rows, s.slots[i].job, s.slots[i].pc, a)
    requires PushesAtMostOne(s, i, n) && LiveCount(n.st, j) == LiveCount(s.st, j)
    ensures Final(cfg, Installed(cfg, s, i, n, a), j, status)
  {
    OtherCallSame(cfg, s, i, n, a, j);
    FinalIfSame(cfg, s, Installed(cfg, s, i, n, a), j, status);
  }

  lemma OwnCallCounted(cfg: Config, s: State, i: nat, n: Next, a: Answer, j: JobId)
    requires Shape(cfg, s) && i < |s.slots| && s.slots[i].Busy? && s.slots[i].job == j
    requires CountSafe(s, j) && !n.pc.BumpCounter?
    requires LiveCount(n.st, j) <= LiveCount(s.st, j) + One(s.slots[i].pc.BumpCounter?)
    ensures CountSafe(Installed(cfg, s, i, n, a), j)
  {
    SumByUpdate(s.slots, i, SlotAfter(s.slots[i].job, s.slots[i].url, n.pc), Bumping(j));
  }

  lemma UnarmedUpdated(post: InvoiceResult -> Option<InvoiceResult>, slots: seq<Slot>, i: nat, x: Slot, j: JobId)
    requires i < |slots| && Unarmed(post, slots, j) && (x.Busy? ==> !Armed(post, x.pc))
    ensures Unarmed(post, slots[i := x], j)
  {
  }

  lemma FinalOwnCall(cfg: Config, s: State, i: nat, n: Next, a: Answer, j: JobId)
    requires Shape(cfg, s) && i < |s.slots| && s.slots[i].Busy? && s.slots[i].job == j
    requires j in s.st.rows && Final(cfg, s, j, FAILED_TRANSIENT)
    requires WritesOwnRow(s.st.rows, n.st.rows, j, s.slots[i].pc, a) && RowAllowed(n.st.rows[j])
    requires !Armed(cfg.post, n.pc) && !n.pc.BumpCounter?
    requires LiveCount(n.st, j) <= LiveCount(s.st, j) + One(s.slots[i].pc.BumpCounter?)
    requires Target(s.slots[i].pc).Some? ==> Target(s.slots[i].pc).value == FAILED_TRANSIENT
    ensures Final(cfg, Installed(cfg, s, i, n, a), j, FAILED_TRANSIENT)
  {
    OwnCallCounted(cfg, s, i, n, a, j);
    UnarmedUpdated(cfg.post, s.slots, i, SlotAfter(j, s.slots[i].url, n.pc), j);
    var t := Installed(cfg, s, i, n, a);
    assert t.slots == s.slots[i := SlotAfter(j, s.slots[i].url, n.pc)];
    assert t.submits == s.submits && t.log.used == s.log.used;
  }

  lemma FinalCall(cfg: Config, s: State, i: nat, a: Answer, j: JobId, status: JobStatus)
    requires Shape(cfg, s) && i < |s.slots| && s.slots[i].Busy?
    requires status.Terminal() && Final(cfg, s, j, status) && Coherent(s, s.slots[i].job)
    ensures Final(cfg, SlotCalled(cfg, s, i, a), j, status)
  {
    var n, p := SlotNext(cfg, s, i, a), cfg.processOf[i];
    var Busy(job, url, pc) := s.slots[i];
    var env := Env(cfg.psv[p], cfg.post);
    StepWritesOwnRow(env, s.st, s.buckets[p], job, url, pc, a);
    StepConservesStake(env, s.st, s.buckets[p], job, url, pc, a);
    if job != j {
      StepLeavesOthersCounters(env, s.st, s.buckets[p], job, url, pc, a, j);
      FinalOtherCall(cfg, s, i, n, a, j, status);
    } else if j in s.st.rows {
      if status == FAILED_TRANSIENT {
        SumByMember(s.slots, i, Bumping(j));
        StepStaysUnarmed(env, s.st, s.buckets[p], job, url, pc, a);
        FinalOwnCall(cfg, s, i, n, a, j);
      } else {
        LastFailWrite(cfg, s, i, a, j);
      }
    }
  }

  lemma LastFailWrite(cfg: Config, s: State, i: nat, a: Answer, j: JobId)
    requires Shape(cfg, s) && i < |s.slots| && s.slots[i].Busy? && s.slots[i].job == j
    requires j in s.st.rows && Final(cfg, s, j, FAILED_PERMANENT)
    ensures Final(cfg, SlotCalled(cfg, s, i, a), j, FAILED_PERMANENT)
  {
    var t := SlotCalled(cfg, s, i, a);
    assert t.slots[i] == Idle && t.st.queue == s.st.queue && t.sweeps == s.sweeps;
  }

  lemma FinalPool(cfg: Config, s: State, e: Event, j: JobId, status: JobStatus)
    requires IsPool(e) && Enabled(s, cfg, e) && Final(cfg, s, j, status)
    ensures Final(cfg, Pooled(s, cfg, e), j, status)
  {
    SumByUpdate(s.slots, e.slot, Pooled(s, cfg, e).slots[e.slot], Bumping(j));
  }

  lemma FinalSubmit(cfg: Config, s: State, e: Event, j: JobId, status: JobStatus)
    requires IsSubmit(e) && Enabled(s, cfg, e) && Final(cfg, s, j, status)
    ensures Final(cfg, Submitted(s, cfg, e), j, status)
  {
    RowMovesSubmit(cfg, s, e, j);
  }

  lemma FinalUpkeep(cfg: Config, s: State, e: Event, j: JobId, status: JobStatus)
    requires IsUpkeep(e) && Enabled(s, cfg, e) && status.Terminal() && Final(cfg, s, j, status)
    ensures Final(cfg, Upkept(s, cfg, e), j, status)
  {
    RowMovesUpkeep(cfg, s, e, j);
    UpkeepFrame(s, cfg, e);
    var t := Upkept(s, cfg, e);
    assert LiveCount(t.st, j) <= LiveCount(s.st, j);
    if j in t.st.rows && status != FAILED_TRANSIENT {
      NoNewSnapshot(cfg, s, e, j);
    }
  }

  /** A terminal row enters no snapshot. */
  lemma NoNewSnapshot(cfg: Config, s: State, e: Event, j: JobId)
    requires IsUpkeep(e) && Enabled(s, cfg, e) && !InSnapshot(s, j)
    requires j in s.st.rows ==> s.st.rows[j].status.Terminal()
    ensures !InSnapshot(Upkept(s, cfg, e), j)
    ensures j in Upkept(s, cfg, e).st.rows ==> Upkept(s, cfg, e).st.rows[j] == s.st.rows[j]
  {
    var t := Upkept(s, cfg, e);
    forall k, n | 0 <= k < |t.sweeps| && 0 <= n < |t.sweeps[k]| ensures t.sweeps[k][n].job != j {
      if e.SweepSelect? && k == e.sweeper {
        assert t.sweeps[k][n].job == e.order[n];
      } else if e.SweepWrite? && k == e.sweeper {
        assert t.sweeps[k][n] == s.sweeps[k][n + 1];
      } else if e.SweepAbort? && k == e.sweeper {
      } else {
        assert t.sweeps[k][n] == s.sweeps[k][n];
      }
    }
    if e.SweepWrite? {
      assert s.sweeps[e.sweeper][0].job != j;
    }
  }

  lemma FinalStep(cfg: Config, s: State, e: Event, j: JobId, status: JobStatus)
    requires Shape(cfg, s) && Enabled(s, cfg, e) && status.Terminal() && Final(cfg, s, j, status)
    requires e.SlotCall? ==> Coherent(s, s.slots[e.slot].job)
    ensures Final(cfg, Apply(cfg, s, e), j, status)
  {
    if e.SlotCall? {
      FinalCall(cfg, s, e.slot, e.a, j, status);
    } else if IsSubmit(e) {
      FinalSubmit(cfg, s, e, j, status);
    } else if IsPool(e) {
      FinalPool(cfg, s, e, j, status);
    } else {
      FinalUpkeep(cfg, s, e, j, status);
    }
  }

  lemma {:induction false} FinalRun(cfg: Config, s: State, es: seq<Event>, j: JobId, status: JobStatus)
    requires Shape(cfg, s) && Valid(cfg, s, es) && status.Terminal() && Final(cfg, s, j, status)
    requires forall j :: Coherent(s, j)
    ensures Final(cfg, Run(cfg, s, es), j, status)
    decreases |es|
  {
    if es == [] {
    } else {
      FinalStep(cfg, s, es[0], j, status);
      ShapeKept(cfg, s, es[0]);
      CoherentStep(cfg, s, es[0]);
      FinalRun(cfg, Apply(cfg, s, es[0]), es[1..], j, status);
    }
  }

  lemma CoherentStep(cfg: Config, s: State, e: Event)
    requires Shape(cfg, s) && Enabled(s, cfg, e) && forall j :: Coherent(s, j)
    ensures forall j :: Coherent(Apply(cfg, s, e), j)
  {
    forall j ensures Coherent(Apply(cfg, s, e), j) {
      RowMovesStep(cfg, s, e, j);
    }
  }

  // ---- Rows that are not written again ----

  ghost predicate Held(s: State, j: JobId) {
    exists i :: 0 <= i < |s.slots| && s.slots[i].Busy? && s.slots[i].job == j
  }

  /** SUCCEEDED and settled; or FAILED_PERMANENT and settled, and no slot is about to fail the job again. */
  ghost predicate Resting(cfg: Config, s: State, j: JobId) {
    && j in s.st.rows && s.st.rows[j].status in {SUCCEEDED, FAILED_PERMANENT}
    && Settled(cfg, s, j) && (s.st.rows[j].status == FAILED_PERMANENT ==> !Held(s, j))
  }

  lemma RestingIsFree(cfg: Config, s: State, j: JobId)
    requires Resting(cfg, s, j)
    ensures !Held(s, j) && !InSnapshot(s, j) && forall i :: 0 <= i < |s.st.queue| ==> s.st.queue[i].job != j
  {
  }

  lemma RestingCall(cfg: Config, s: State, i: nat, a: Answer, j: JobId)
    requires Shape(cfg, s) && i < |s.slots| && s.slots[i].Busy? && Coherent(s, s.slots[i].job)
    requires !Held(s, j)
    ensures var t := SlotCalled(cfg, s, i, a);
      !Held(t, j) && (j in s.st.rows ==> j in t.st.rows && t.st.rows[j] == s.st.rows[j])
  {
    var p := cfg.processOf[i];
    var Busy(job, url, pc) := s.slots[i];
    StepWritesOwnRow(Env(cfg.psv[p], cfg.post), s.st, s.buckets[p], job, url, pc, a);
  }

  lemma RestingPool(cfg: Config, s: State, e: Event, j: JobId)
    requires IsPool(e) && Enabled(s, cfg, e) && !Held(s, j)
    requires forall i :: 0 <= i < |s.st.queue| ==> s.st.queue[i].job != j
    ensures !Held(Pooled(s, cfg, e), j)
  {
  }

  /** Such a row is not written any more, only purged. */
  lemma RowRests(cfg: Config, s: State, e: Event, j: JobId)
    requires Shape(cfg, s) && Enabled(s, cfg, e) && Resting(cfg, s, j)
    requires e.SlotCall? ==> Coherent(s, s.slots[e.slot].job)
    ensures var t := Apply(cfg, s, e); !Held(t, j) && (j in t.st.rows ==> t.st.rows[j] == s.st.rows[j])
  {
    RestingIsFree(cfg, s, j);
    if e.SlotCall? {
      RestingCall(cfg, s, e.slot, e.a, j);
    } else if IsPool(e) {
      RestingPool(cfg, s, e, j);
    } else if IsUpkeep(e) {
      NoNewSnapshot(cfg, s, e, j);
      UpkeepFrame(s, cfg, e);
    }
  }

  lemma RestingStep(cfg: Config, s: State, e: Event, j: JobId)
    requires Shape(cfg, s) && Enabled(s, cfg, e) && Resting(cfg, s, j)
    requires Coherent(s, j) && (e.SlotCall? ==> Coherent(s, s.slots[e.slot].job))
    ensures var t := Apply(cfg, s, e); j in t.st.rows ==> t.st.rows[j] == s.st.rows[j] && Resting(cfg, t, j)
  {
    var status := s.st.rows[j].status;
    assert Final(cfg, s, j, status);
    FinalStep(cfg, s, e, j, status);
    RowRests(cfg, s, e, j);
    FinalRests(cfg, Apply(cfg, s, e), j, status);
  }

  lemma FinalRests(cfg: Config, s: State, j: JobId, status: JobStatus)
    requires Final(cfg, s, j, status) && status in {SUCCEEDED, FAILED_PERMANENT} && !Held(s, j)
    ensures j in s.st.rows ==> Resting(cfg, s, j)
  {
  }

  lemma {:induction false} RestingRun(cfg: Config, s: State, es: seq<Event>, j: JobId)
    requires Shape(cfg, s) && Valid(cfg, s, es) && Resting(cfg, s, j)
    requires forall j :: Coherent(s, j)
    ensures j in Run(cfg, s, es).st.rows ==> Run(cfg, s, es).st.rows[j] == s.st.rows[j]
    decreases |es|
  {
    if es == [] {
    } else {
      var next := Apply(cfg, s, es[0]);
      RestingStep(cfg, s, es[0], j);
      ShapeKept(cfg, s, es[0]);
      CoherentStep(cfg, s, es[0]);
      if j in next.st.rows {
        RestingRun(cfg, next, es[1..], j);
      } else {
        RowMovesStep(cfg, s, es[0], j);
        RowMovesRun(cfg, next, es[1..], j);
      }
    }
  }
}
