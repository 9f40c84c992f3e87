/** No job is stranded: a job that nothing stands for any more is frozen, and the next
    sweep past its window that gets as far as the job fails it for good. */
module Stranded {
  import opened Common
  import opened Schemas
  import opened JobsTable
  import opened TokenBuckets
  import opened SlotMachine
  import opened Protocol
  import opened Messages
  import opened Terminal

  /** Submitted, and neither queued nor held by a slot or a submit. */
  ghost predicate Frozen(s: State, j: JobId) {
    j in s.log.used && Load(s, j) == 0
  }

  /** The event is a sweeper's successful write of `j`. */
  predicate Sweeps(s: State, e: Event, j: JobId) {
    && e.SweepWrite? && e.a.Ok?
    && e.sweeper < |s.sweeps| && s.sweeps[e.sweeper] != [] && s.sweeps[e.sweeper][0].job == j
  }

  /** A frozen job stays frozen, and its unfinished row is written by sweeps alone. */
  ghost predicate StaysFrozen(s: State, e: Event, t: State, j: JobId) {
    && Frozen(t, j)
    && (j in s.st.rows && !s.st.rows[j].status.Terminal() ==>
          && j in t.st.rows
          && (if Sweeps(s, e, j) then t.st.rows[j].status == FAILED_TRANSIENT else t.st.rows[j] == s.st.rows[j]))
    && (j in s.st.rows && j in t.st.rows && s.st.rows[j].status == FAILED_TRANSIENT ==>
          t.st.rows[j].status == FAILED_TRANSIENT)
    && (j !in s.st.rows ==> j !in t.st.rows)
  }

  lemma FrozenCall(cfg: Config, s: State, i: nat, a: Answer, j: JobId)
    requires Shape(cfg, s) && i < |s.slots| && s.slots[i].Busy? && Frozen(s, j)
    requires Coherent(s, s.slots[i].job)
    ensures StaysFrozen(s, SlotCall(i, a), SlotCalled(cfg, s, i, a), j)
  {
    var n, p := SlotNext(cfg, s, i, a), cfg.processOf[i];
    var Busy(job, url, pc) := s.slots[i];
    var env := Env(cfg.psv[p], cfg.post);
    SumByMember(s.slots, i, Holds(j));
    StepConservesStake(env, s.st, s.buckets[p], job, url, pc, a);
    StepWritesOwnRow(env, s.st, s.buckets[p], job, url, pc, a);
    FrozenInstalled(cfg, s, i, n, a, j);
  }

  lemma FrozenInstalled(cfg: Config, s: State, i: nat, n: Next, a: Answer, j: JobId)
    requires Shape(cfg, s) && i < |s.slots| && s.slots[i].Busy? && s.slots[i].job != j && Frozen(s, j)
    requires PushesAtMostOne(s, i, n)
    requires |n.st.queue| + Stake(n.pc)
          <= |s.st.queue| + Stake(s.slots[i].pc) + One(IsBlip(s.slots[i].pc, n.pc))
    requires WritesOwnRow(s.st.rows, n.st.rows, s.slots[i].job, s.slots[i].pc, a)
    ensures StaysFrozen(s, SlotCall(i, a), Installed(cfg, s, i, n, a), j)
  {
    CallMovesMessage(cfg, s, i, n, a, j);
  }

  lemma FrozenPool(cfg: Config, s: State, e: Event, j: JobId)
    requires IsPool(e) && Enabled(s, cfg, e) && Frozen(s, j)
    ensures StaysFrozen(s, e, Pooled(s, cfg, e), j)
  {
    SumByUpdate(s.slots, e.slot, Pooled(s, cfg, e).slots[e.slot], Holds(j));
    if e.Pop? {
      PopMovesMessage(s, e.slot, j);
    }
  }

  lemma FrozenSubmit(cfg: Config, s: State, e: Event, j: JobId)
    requires IsSubmit(e) && Enabled(s, cfg, e) && Frozen(s, j)
    ensures StaysFrozen(s, e, Submitted(s, cfg, e), j)
  {
    if e.SubmitPush? && e.a.Ok? {
      assert Submitted(s, cfg, e).st.queue[1..] == s.st.queue;
    }
  }

  lemma FrozenUpkeep(cfg: Config, s: State, e: Event, j: JobId)
    requires IsUpkeep(e) && Enabled(s, cfg, e) && Frozen(s, j)
    ensures StaysFrozen(s, e, Upkept(s, cfg, e), j)
  {
    UpkeepFrame(s, cfg, e);
  }

  lemma FrozenStep(cfg: Config, s: State, e: Event, j: JobId)
    requires Shape(cfg, s) && Enabled(s, cfg, e) && Frozen(s, j) && forall j :: Coherent(s, j)
    ensures StaysFrozen(s, e, Protocol.Apply(cfg, s, e), j)
  {
    if e.SlotCall? {
      assert Coherent(s, s.slots[e.slot].job);
      FrozenCall(cfg, s, e.slot, e.a, j);
    } else if IsSubmit(e) {
      FrozenSubmit(cfg, s, e, j);
    } else if IsPool(e) {
      FrozenPool(cfg, s, e, j);
    } else {
      FrozenUpkeep(cfg, s, e, j);
    }
  }

  // ---- Until a sweep comes ----

  ghost predicate Unswept(cfg: Config, s: State, es: seq<Event>, j: JobId)
    requires Shape(cfg, s) && Valid(cfg, s, es)
    decreases |es|
  {
    es != [] ==>
      && !Sweeps(s, es[0], j)
      && (ShapeKept(cfg, s, es[0]); Unswept(cfg, Protocol.Apply(cfg, s, es[0]), es[1..], j))
  }

  lemma {:induction false} FrozenRun(cfg: Config, s: State, es: seq<Event>, j: JobId)
    requires Shape(cfg, s) && Valid(cfg, s, es) && Frozen(s, j) && forall j :: Coherent(s, j)
    requires j in s.st.rows && !s.st.rows[j].status.Terminal() && Unswept(cfg, s, es, j)
    ensures var t := Run(cfg, s, es); j in t.st.rows && t.st.rows[j] == s.st.rows[j] && Frozen(t, j)
    decreases |es|
  {
    if es == [] {
    } else {
      FrozenStep(cfg, s, es[0], j);
      CoherentStep(cfg, s, es[0]);
      ShapeKept(cfg, s, es[0]);
      FrozenRun(cfg, Protocol.Apply(cfg, s, es[0]), es[1..], j);
    }
  }

  /** In every reachable state, whatever crashed or failed, an unfinished job is queued or
      held, or else its row stays exactly as it is until a sweep writes it. */
  lemma NoStrandedJob(cfg: Config, s0: State, es: seq<Event>, s: State, fs: seq<Event>, t: State, j: JobId)
    requires Init(cfg, s0) && Valid(cfg, s0, es) && s == Run(cfg, s0, es)
    requires j in s.st.rows && !s.st.rows[j].status.Terminal()
    requires Shape(cfg, s) && Valid(cfg, s, fs) && t == Run(cfg, s, fs) && Unswept(cfg, s, fs, j)
    ensures Load(s, j) > 0 || (j in t.st.rows && t.st.rows[j] == s.st.rows[j])
  {
    if Load(s, j) == 0 {
      CoherentRun(cfg, s0, es);
      assert Coherent(s, j);
      FrozenRun(cfg, s, fs, j);
    }
  }

  // ---- The sweep ----

  predicate Awaits(s: State, k: nat, j: JobId) {
    k < |s.sweeps| && exists n :: 0 <= n < |s.sweeps[k]| && s.sweeps[k][n].job == j
  }

  /** Failed already, or purged since, or still to be written by sweeper `k`. */
  ghost predicate Recovering(s: State, k: nat, j: JobId) {
    && Frozen(s, j)
    && (j in s.st.rows ==>
          || s.st.rows[j].status == FAILED_TRANSIENT
          || (!s.st.rows[j].status.Terminal() && Awaits(s, k, j)))
  }

  /** The event neither stops sweeper `k` nor is its write of `j`, failing. */
  predicate Spares(s: State, e: Event, k: nat, j: JobId) {
    && !(e.SweepAbort? && e.sweeper == k)
    && (e.SweepWrite? && e.sweeper == k && k < |s.sweeps| && s.sweeps[k] != [] && s.sweeps[k][0].job == j ==> e.a.Ok?)
  }

  /** While sweeper `k` has `j` still to write it is not stopped, and its write of `j` does not fail. */
  ghost predicate Diligent(cfg: Config, s: State, es: seq<Event>, k: nat, j: JobId)
    requires Shape(cfg, s) && Valid(cfg, s, es)
    decreases |es|
  {
    es != [] ==>
      && (Awaits(s, k, j) ==> Spares(s, es[0], k, j))
      && (ShapeKept(cfg, s, es[0]); Diligent(cfg, Protocol.Apply(cfg, s, es[0]), es[1..], k, j))
  }

  lemma AwaitsStep(cfg: Config, s: State, e: Event, k: nat, j: JobId)
    requires Shape(cfg, s) && Enabled(s, cfg, e) && Awaits(s, k, j) && Spares(s, e, k, j)
    ensures Awaits(Protocol.Apply(cfg, s, e), k, j) || Sweeps(s, e, j)
  {
    var t := Protocol.Apply(cfg, s, e);
    var n :| 0 <= n < |s.sweeps[k]| && s.sweeps[k][n].job == j;
    if e.SweepWrite? && e.sweeper == k {
      if n > 0 {
        assert t.sweeps[k][n - 1] == s.sweeps[k][n];
      }
    } else {
      assert t.sweeps[k] == s.sweeps[k];
    }
  }

  lemma {:induction false} RecoveringRun(cfg: Config, s: State, es: seq<Event>, k: nat, j: JobId)
    requires Shape(cfg, s) && Valid(cfg, s, es) && forall j :: Coherent(s, j)
    requires Recovering(s, k, j) && Diligent(cfg, s, es, k, j)
    ensures Recovering(Run(cfg, s, es), k, j)
    decreases |es|
  {
    if es == [] {
    } else {
      FrozenStep(cfg, s, es[0], j);
      if Awaits(s, k, j) {
        AwaitsStep(cfg, s, es[0], k, j);
      }
      CoherentStep(cfg, s, es[0]);
      ShapeKept(cfg, s, es[0]);
      RecoveringRun(cfg, Protocol.Apply(cfg, s, es[0]), es[1..], k, j);
    }
  }

  /** A frozen job past its window (30 minutes after creation if PENDING, 15 after its last
      update if PROCESSING) is failed by any sweep that selects then and gets as far as writing it,
      whatever else fails or happens in between, and keeps that status until it is purged. */
  lemma SweepRecoversFrozenJob(cfg: Config, s0: State, es: seq<Event>, s: State,
                               k: nat, order: seq<JobId>, next: State, fs: seq<Event>, t: State, j: JobId)
    requires Init(cfg, s0) && Valid(cfg, s0, es) && s == Run(cfg, s0, es) && Shape(cfg, s)
    requires Frozen(s, j) && j in s.st.rows && Stale(s.st.rows[j], s.st.now)
    requires Enabled(s, cfg, SweepSelect(k, order))
    requires next == Protocol.Apply(cfg, s, SweepSelect(k, order)) && Shape(cfg, next)
    requires Valid(cfg, next, fs) && t == Run(cfg, next, fs)
    requires Diligent(cfg, next, fs, k, j) && !Awaits(t, k, j)
    ensures j in t.st.rows ==> t.st.rows[j].status == FAILED_TRANSIENT
  {
    CoherentRun(cfg, s0, es);
    CoherentStep(cfg, s, SweepSelect(k, order));
    FrozenStep(cfg, s, SweepSelect(k, order), j);
    assert j in order;
    var n :| 0 <= n < |order| && order[n] == j;
    assert next.sweeps[k][n].job == j;
    RecoveringRun(cfg, next, fs, k, j);
  }
}
