/** How long rows are left alone: no sweep selects a row that was written lately, and no purge removes
    one before its time. */
module Windows {
  import opened Common
  import opened Schemas
  import opened JobsTable
  import opened TokenBuckets
  import opened SlotMachine
  import opened Protocol
  import opened Messages
  import opened Terminal
  import opened Exits

  /** PROCESSING without a write for more than fifteen minutes, or PENDING for more than thirty. */
  predicate Overdue(row: JobRecord, now: real) {
    || (row.status == PROCESSING && row.updatedAt < now - 900.0)
    || (row.status == PENDING && row.createdAt < now - 1800.0)
  }

  /** Terminal, and not written for more than ninety days. */
  predicate Outlived(row: JobRecord, now: real) {
    row.status in {SUCCEEDED, FAILED_PERMANENT, FAILED_TRANSIENT} && row.updatedAt < now - 7776000.0
  }

  lemma StaleIsOverdue(row: JobRecord, now: real)
    ensures Stale(row, now) <==> Overdue(row, now)
    ensures Purgeable(row, now) <==> Outlived(row, now)
  {
  }

  // ---- What every event does to the times of a row ----

  ghost predicate Aged(s: State, j: JobId) {
    j in s.st.rows ==> s.st.rows[j].createdAt <= s.st.rows[j].updatedAt <= s.st.now
  }

  /** A row keeps its creation, its last write never moves back, and it goes only when outlived. */
  ghost predicate Ages(s: State, t: State, j: JobId) {
    && s.st.now <= t.st.now && Aged(t, j)
    && (j in s.st.rows && j in t.st.rows ==>
          && t.st.rows[j].createdAt == s.st.rows[j].createdAt
          && t.st.rows[j].updatedAt >= s.st.rows[j].updatedAt)
    && (j in s.st.rows && j !in t.st.rows ==> Outlived(s.st.rows[j], s.st.now))
  }

  lemma CallAges(cfg: Config, s: State, i: nat, a: Answer, j: JobId)
    requires Shape(cfg, s) && i < |s.slots| && s.slots[i].Busy? && Aged(s, j) && Coherent(s, s.slots[i].job)
    ensures Ages(s, SlotCalled(cfg, s, i, a), j)
  {
    var p := cfg.processOf[i];
    var Busy(job, url, pc) := s.slots[i];
    var env := Env(cfg.psv[p], cfg.post);
    RowsExactly(env, s.st, s.buckets[p], job, url, pc, a);
    RedisExactly(env, s.st, s.buckets[p], job, url, pc, a);
    InstalledAges(cfg, s, i, SlotNext(cfg, s, i, a), a, j);
  }

  lemma InstalledAges(cfg: Config, s: State, i: nat, n: Next, a: Answer, j: JobId)
    requires Shape(cfg, s) && i < |s.slots| && s.slots[i].Busy? && Aged(s, j)
    requires n.st.rows.Keys == s.st.rows.Keys && n.st.now == s.st.now
    requires forall k :: k in n.st.rows && k != s.slots[i].job ==> n.st.rows[k] == s.st.rows[k]
    requires var job := s.slots[i].job; job in n.st.rows ==>
      || n.st.rows[job] == s.st.rows[job]
      || RowWritten(s.st.rows[job], n.st.rows[job], s.slots[i].pc, s.st.now)
    ensures Ages(s, Installed(cfg, s, i, n, a), j)
  {
    assert Installed(cfg, s, i, n, a).st == n.st;
  }

  lemma SubmitAges(cfg: Config, s: State, e: Event, j: JobId)
    requires IsSubmit(e) && Enabled(s, cfg, e) && Aged(s, j)
    ensures Ages(s, Submitted(s, cfg, e), j)
  {
  }

  lemma UpkeepAges(cfg: Config, s: State, e: Event, j: JobId)
    requires IsUpkeep(e) && Enabled(s, cfg, e) && Aged(s, j)
    ensures Ages(s, Upkept(s, cfg, e), j)
  {
  }

  lemma StepAges(cfg: Config, s: State, e: Event, j: JobId)
    requires Shape(cfg, s) && Enabled(s, cfg, e) && Aged(s, j)
    requires e.SlotCall? ==> Coherent(s, s.slots[e.slot].job)
    ensures Ages(s, Apply(cfg, s, e), j)
  {
    if e.SlotCall? {
      CallAges(cfg, s, e.slot, e.a, j);
    } else if IsSubmit(e) {
      SubmitAges(cfg, s, e, j);
    } else if IsUpkeep(e) {
      UpkeepAges(cfg, s, e, j);
    }
  }

  // ---- Over runs ----

  /** Later on a row has its creation, a write no older than then, and it is there for ninety days. */
  ghost predicate Lasts(s: State, t: State, j: JobId) {
    && s.st.now <= t.st.now && Aged(t, j)
    && (j in s.st.rows && j in t.st.rows ==>
          && t.st.rows[j].createdAt == s.st.rows[j].createdAt
          && t.st.rows[j].updatedAt >= s.st.rows[j].updatedAt)
    && (j in s.st.rows && t.st.now <= s.st.rows[j].updatedAt + 7776000.0 ==> j in t.st.rows)
  }

  lemma {:induction false} RowKept(cfg: Config, s: State, es: seq<Event>, j: JobId)
    requires Shape(cfg, s) && Valid(cfg, s, es) && Aged(s, j) && forall j :: Coherent(s, j)
    ensures Lasts(s, Run(cfg, s, es), j)
    decreases |es|
  {
    if es == [] {
    } else {
      var next := Apply(cfg, s, es[0]);
      StepAges(cfg, s, es[0], j);
      ShapeKept(cfg, s, es[0]);
      CoherentStep(cfg, s, es[0]);
      RowMovesStep(cfg, s, es[0], j);
      RowMovesRun(cfg, next, es[1..], j);
      RowKept(cfg, next, es[1..], j);
    }
  }

  lemma {:induction false} AgedRun(cfg: Config, s0: State, es: seq<Event>, j: JobId)
    requires Init(cfg, s0) && Valid(cfg, s0, es)
    ensures Aged(Run(cfg, s0, es), j)
  {
    RowKept(cfg, s0, es, j);
  }

  /** A row that was last written at most fifteen minutes ago while PROCESSING, or created at most
      thirty minutes ago while PENDING, is in no snapshot; and every row outlives its last write by
      ninety days. `s` is any earlier state of the run, and its times are lower bounds. */
  lemma LeftAlone(cfg: Config, s0: State, es: seq<Event>, s: State, fs: seq<Event>, t: State, j: JobId,
                  k: nat, order: seq<JobId>)
    requires Init(cfg, s0) && Valid(cfg, s0, es) && s == Run(cfg, s0, es) && j in s.st.rows
    requires Shape(cfg, s) && Valid(cfg, s, fs) && t == Run(cfg, s, fs)
    ensures t.st.now <= s.st.rows[j].updatedAt + 7776000.0 ==> j in t.st.rows
    ensures j in t.st.rows && Enabled(t, cfg, SweepSelect(k, order)) ==>
      && (t.st.rows[j].status == PROCESSING && t.st.now <= s.st.rows[j].updatedAt + 900.0 ==> j !in order)
      && (t.st.rows[j].status == PENDING && t.st.now <= s.st.rows[j].createdAt + 1800.0 ==> j !in order)
  {
    AgedRun(cfg, s0, es, j);
    CoherentRun(cfg, s0, es);
    RowKept(cfg, s, fs, j);
    if j in t.st.rows {
      StaleIsOverdue(t.st.rows[j], t.st.now);
    }
  }

  /** A call that writes or touches the row of its job, and succeeds, starts these times anew. */
  lemma CallRenews(cfg: Config, s: State, i: nat)
    requires Shape(cfg, s) && i < |s.slots| && s.slots[i].Busy? && WritesRow(s.slots[i].pc)
    requires s.slots[i].job in s.st.rows && RowAllowed(s.st.rows[s.slots[i].job])
    ensures var (t, job) := (SlotCalled(cfg, s, i, Ok), s.slots[i].job);
      job in t.st.rows && t.st.rows[job].updatedAt == s.st.now
  {
    var p := cfg.processOf[i];
    var Busy(job, url, pc) := s.slots[i];
    RowsExactly(Env(cfg.psv[p], cfg.post), s.st, s.buckets[p], job, url, pc, Ok);
  }

  /** And so does the INSERT. */
  lemma InsertStarts(cfg: Config, s: State, j: JobId)
    requires Enabled(s, cfg, SubmitInsert(j, Ok)) && j !in s.st.rows
    ensures var t := Submitted(s, cfg, SubmitInsert(j, Ok));
      && j in t.st.rows && t.st.rows[j].status == PENDING && t.st.rows[j].imageUrl == s.submits[j].url
      && t.st.rows[j].createdAt == t.st.rows[j].updatedAt == s.st.now
      && t.st.rows[j].result == None && t.st.rows[j].phash == None
      && t.st.rows[j].errorCode == None && t.st.rows[j].errorMessage == None
  {
  }
}
