/** `Settled` is exact: from any other state some run changes the terminal status. */
module TerminalExact {
  import opened Common
  import opened Schemas
  import opened JobsTable
  import opened TokenBuckets
  import opened SlotMachine
  import opened Protocol
  import opened Messages
  import opened Terminal

  /** No run from `s` shows the row of `j` with another status. */
  ghost predicate StatusFixed(cfg: Config, s: State, j: JobId)
    requires Shape(cfg, s) && j in s.st.rows
  {
    forall es :: Valid(cfg, s, es) ==> !Changes(cfg, s, es, j)
  }

  ghost predicate Changes(cfg: Config, s: State, es: seq<Event>, j: JobId)
    requires Shape(cfg, s) && j in s.st.rows && Valid(cfg, s, es)
  {
    var t := Run(cfg, s, es);
    j in t.st.rows && t.st.rows[j].status != s.st.rows[j].status
  }

  ghost predicate Undoes(cfg: Config, s: State, es: seq<Event>, j: JobId)
    requires Shape(cfg, s) && j in s.st.rows
  {
    Valid(cfg, s, es) && Changes(cfg, s, es, j)
  }

  /** A change later is a change now, if the status is still the same. */
  lemma UndoesLater(cfg: Config, s: State, e: Event, next: State, es: seq<Event>, j: JobId)
    requires Shape(cfg, s) && Enabled(s, cfg, e) && next == Protocol.Apply(cfg, s, e) && Shape(cfg, next)
    requires j in s.st.rows && j in next.st.rows && next.st.rows[j].status == s.st.rows[j].status
    requires Undoes(cfg, next, es, j)
    ensures Undoes(cfg, s, [e] + es, j)
  {
    RunFirst(cfg, s, e, next, es);
  }

  lemma UndoesNow(cfg: Config, s: State, e: Event, next: State, j: JobId)
    requires Shape(cfg, s) && Enabled(s, cfg, e) && next == Protocol.Apply(cfg, s, e) && Shape(cfg, next)
    requires j in s.st.rows && j in next.st.rows && next.st.rows[j].status != s.st.rows[j].status
    ensures Undoes(cfg, s, [e], j)
  {
    RunFirst(cfg, s, e, next, []);
    assert [e] + [] == [e];
  }

  // ---- A slot that can write another status ----

  lemma CallWrites(cfg: Config, s: State, i: nat, j: JobId) returns (es: seq<Event>)
    requires Shape(cfg, s) && i < |s.slots| && s.slots[i].Busy? && s.slots[i].job == j
    requires j in s.st.rows && Coherent(s, j)
    requires Target(s.slots[i].pc).Some? && Target(s.slots[i].pc).value != s.st.rows[j].status
    ensures Undoes(cfg, s, es, j)
  {
    var p := cfg.processOf[i];
    ShapeKept(cfg, s, SlotCall(i, Ok));
    StepWritesOwnRow(Env(cfg.psv[p], cfg.post), s.st, s.buckets[p], j, s.slots[i].url, s.slots[i].pc, Ok);
    UndoesNow(cfg, s, SlotCall(i, Ok), SlotCalled(cfg, s, i, Ok), j);
    es := [SlotCall(i, Ok)];
  }

  /** The answer that leads a slot past the status check to a write of its own. */
  function Nudge(pc: Pc): Answer {
    match pc
    case ReadCache(_) => Unavailable("")
    case WriteCache(_, _) => Unavailable("")
    case Postprocess(_, _) => Ok
    case AcquireToken(_) => Ok
    case _ => Permanent("", "")
  }

  lemma StepNudged(env: Env, st: Stores, b: Bucket, job: JobId, url: string, pc: Pc)
    requires Armed(env.post, pc) && Target(pc).None?
    requires pc.AcquireToken? ==> Admits(b, st.now)
    ensures var n := Step(env, st, b, job, url, pc, Nudge(pc));
      n.st.rows == st.rows && Armed(env.post, n.pc) && Rank(n.pc) < Rank(pc)
  {
  }

  lemma ArmedSlotRewrites(cfg: Config, s: State, i: nat, j: JobId) returns (es: seq<Event>)
    requires Shape(cfg, s) && i < |s.slots| && s.slots[i].Busy? && s.slots[i].job == j
    requires j in s.st.rows && Coherent(s, j) && s.st.rows[j].status == FAILED_TRANSIENT
    requires Armed(cfg.post, s.slots[i].pc)
    requires s.slots[i].pc.AcquireToken? ==> Admits(s.buckets[cfg.processOf[i]], s.st.now)
    ensures Undoes(cfg, s, es, j)
    decreases Rank(s.slots[i].pc), 0
  {
    var Busy(_, url, pc) := s.slots[i];
    if Target(pc).Some? {
      es := CallWrites(cfg, s, i, j);
    } else {
      var a, p := Nudge(pc), cfg.processOf[i];
      var next := NudgedSlot(cfg, s, i, j);
      var rest: seq<Event>;
      if next.slots[i].pc.AcquireToken? {
        rest := RefilledSlotRewrites(cfg, next, i, j);
      } else {
        rest := ArmedSlotRewrites(cfg, next, i, j);
      }
      es := [SlotCall(i, a)] + rest;
      UndoesLater(cfg, s, SlotCall(i, a), next, rest, j);
    }
  }

  lemma NudgedSlot(cfg: Config, s: State, i: nat, j: JobId) returns (next: State)
    requires Shape(cfg, s) && i < |s.slots| && s.slots[i].Busy? && s.slots[i].job == j
    requires j in s.st.rows && Coherent(s, j)
    requires Armed(cfg.post, s.slots[i].pc) && Target(s.slots[i].pc).None?
    requires s.slots[i].pc.AcquireToken? ==> Admits(s.buckets[cfg.processOf[i]], s.st.now)
    ensures next.st.rows == s.st.rows && Coherent(next, j)
    ensures i < |next.slots| && next.slots[i].Busy? && next.slots[i].job == j
    ensures Armed(cfg.post, next.slots[i].pc) && Rank(next.slots[i].pc) < Rank(s.slots[i].pc)
    ensures next == SlotCalled(cfg, s, i, Nudge(s.slots[i].pc)) && Shape(cfg, next)
  {
    var a, p := Nudge(s.slots[i].pc), cfg.processOf[i];
    ShapeKept(cfg, s, SlotCall(i, a));
    StepNudged(Env(cfg.psv[p], cfg.post), s.st, s.buckets[p], j, s.slots[i].url, s.slots[i].pc);
    next := SlotCalled(cfg, s, i, a);
  }

  /** Reconfiguring and waiting fills any bucket, so an empty one stops nobody for good. */
  lemma RefilledSlotRewrites(cfg: Config, s: State, i: nat, j: JobId) returns (es: seq<Event>)
    requires Shape(cfg, s) && i < |s.slots| && s.slots[i].Busy? && s.slots[i].job == j
    requires j in s.st.rows && Coherent(s, j) && s.st.rows[j].status == FAILED_TRANSIENT
    requires s.slots[i].pc.AcquireToken?
    ensures Undoes(cfg, s, es, j)
    decreases Rank(s.slots[i].pc), 1
  {
    var p := cfg.processOf[i];
    var b := Reconfigured(s.buckets[p], 1.0, 1);
    var missing := 1.0 - b.tokens - (s.st.now - b.last);
    var dt := if missing < 0.0 then 0.0 else missing;
    var e1, e2 := Reconfigure(p, 1.0, 1), Tick(dt);
    var s1 := Protocol.Apply(cfg, s, e1);
    ShapeKept(cfg, s, e1);
    var s2 := Protocol.Apply(cfg, s1, e2);
    ShapeKept(cfg, s1, e2);
    assert s2.buckets[p] == b && s2.st.now == s.st.now + dt && s2.slots == s.slots;
    assert Refilled(b, s2.st.now).tokens == 1.0;
    var rest := ArmedSlotRewrites(cfg, s2, i, j);
    UndoesLater(cfg, s1, e2, s2, rest, j);
    UndoesLater(cfg, s, e1, s1, [e2] + rest, j);
    es := [e1] + ([e2] + rest);
  }

  // ---- A slot that falls through to the outer handlers ----

  lemma StepFallsThrough(env: Env, st: Stores, b: Bucket, job: JobId, url: string, pc: Pc)
    requires !pc.Done? && !pc.FailWrite?
    ensures var n := Step(env, st, b, job, url, pc, Uncaught(""));
      && n.st.rows == st.rows && !n.pc.Done? && Rank(n.pc) < Rank(pc)
      && (n.pc.FailWrite? ==> !n.pc.permanent)
  {
  }

  /** From every call an unexpected exception ends in FAILED_TRANSIENT. */
  lemma SlotFallsThrough(cfg: Config, s: State, i: nat, j: JobId) returns (es: seq<Event>)
    requires Shape(cfg, s) && i < |s.slots| && s.slots[i].Busy? && s.slots[i].job == j
    requires j in s.st.rows && Coherent(s, j) && s.st.rows[j].status != FAILED_TRANSIENT
    requires s.slots[i].pc.FailWrite? ==> FailStatus(s.slots[i].pc.permanent) != s.st.rows[j].status
    ensures Undoes(cfg, s, es, j)
    decreases Rank(s.slots[i].pc)
  {
    if s.slots[i].pc.FailWrite? {
      es := CallWrites(cfg, s, i, j);
    } else {
      var p := cfg.processOf[i];
      var e := SlotCall(i, Uncaught(""));
      var next := FallenSlot(cfg, s, i, j);
      var rest := SlotFallsThrough(cfg, next, i, j);
      UndoesLater(cfg, s, e, next, rest, j);
      es := [e] + rest;
    }
  }

  lemma FallenSlot(cfg: Config, s: State, i: nat, j: JobId) returns (next: State)
    requires Shape(cfg, s) && i < |s.slots| && s.slots[i].Busy? && s.slots[i].job == j
    requires j in s.st.rows && Coherent(s, j) && !s.slots[i].pc.FailWrite?
    ensures next.st.rows == s.st.rows && Coherent(next, j)
    ensures i < |next.slots| && next.slots[i].Busy? && next.slots[i].job == j
    ensures Rank(next.slots[i].pc) < Rank(s.slots[i].pc)
    ensures next.slots[i].pc.FailWrite? ==> !next.slots[i].pc.permanent
    ensures next == SlotCalled(cfg, s, i, Uncaught("")) && Shape(cfg, next)
  {
    var p := cfg.processOf[i];
    ShapeKept(cfg, s, SlotCall(i, Uncaught("")));
    StepFallsThrough(Env(cfg.psv[p], cfg.post), s.st, s.buckets[p], j, s.slots[i].url, s.slots[i].pc);
    next := SlotCalled(cfg, s, i, Uncaught(""));
  }

  // ---- A snapshot, a message, a submit ----

  lemma SweepReaches(cfg: Config, s: State, k: nat, n: nat, j: JobId) returns (es: seq<Event>)
    requires Shape(cfg, s) && k < |s.sweeps| && n < |s.sweeps[k]| && s.sweeps[k][n].job == j
    requires j in s.st.rows && Coherent(s, j) && s.st.rows[j].status != FAILED_TRANSIENT
    ensures Undoes(cfg, s, es, j)
    decreases n
  {
    var e := SweepWrite(k, if n == 0 then Ok else Uncaught(""));
    ShapeKept(cfg, s, e);
    var next := SweepWritten(s, k, e.a);
    assert Protocol.Apply(cfg, s, e) == next;
    if n == 0 {
      UndoesNow(cfg, s, e, next, j);
      es := [e];
    } else {
      assert next.sweeps[k][n - 1] == s.sweeps[k][n];
      var rest := SweepReaches(cfg, next, k, n - 1, j);
      UndoesLater(cfg, s, e, next, rest, j);
      es := [e] + rest;
    }
  }

  /** Slot 0, restarted, takes the messages in front one after the other. */
  lemma PopReaches(cfg: Config, s: State, m: nat, j: JobId) returns (es: seq<Event>)
    requires Shape(cfg, s) && |s.slots| > 0 && m < |s.st.queue| && s.st.queue[m].job == j
    requires j in s.st.rows && Coherent(s, j) && s.st.rows[j].status != FAILED_TRANSIENT
    ensures Undoes(cfg, s, es, j)
    decreases |s.st.queue|
  {
    var s3 := RestartAndPop(cfg, s, j);
    var rest: seq<Event>;
    if m == |s.st.queue| - 1 {
      rest := SlotFallsThrough(cfg, s3, 0, j);
    } else {
      rest := PopReaches(cfg, s3, m, j);
    }
    es := [Crash(0, 0)] + ([Revive(0)] + ([Pop(0)] + rest));
    var s1 := s.(slots := s.slots[0 := Dead]);
    var s2 := s.(slots := s.slots[0 := Idle]);
    UndoesLater(cfg, s2, Pop(0), s3, rest, j);
    UndoesLater(cfg, s1, Revive(0), s2, [Pop(0)] + rest, j);
    UndoesLater(cfg, s, Crash(0, 0), s1, [Revive(0)] + ([Pop(0)] + rest), j);
  }

  lemma RestartAndPop(cfg: Config, s: State, j: JobId) returns (s3: State)
    requires Shape(cfg, s) && |s.slots| > 0 && s.st.queue != [] && Coherent(s, j)
    ensures var s1 := s.(slots := s.slots[0 := Dead]);
      var s2 := s.(slots := s.slots[0 := Idle]);
      && Shape(cfg, s1) && Shape(cfg, s2) && Shape(cfg, s3)
      && s1 == Protocol.Apply(cfg, s, Crash(0, 0))
      && Enabled(s1, cfg, Revive(0)) && s2 == Protocol.Apply(cfg, s1, Revive(0))
      && Enabled(s2, cfg, Pop(0)) && s3 == Protocol.Apply(cfg, s2, Pop(0))
    ensures var last := |s.st.queue| - 1;
      && s3.st.queue == s.st.queue[..last] && s3.st.rows == s.st.rows && Coherent(s3, j)
      && s3.slots[0] == Busy(s.st.queue[last].job, s.st.queue[last].url, ReadStatus)
  {
    var s2 := s.(slots := s.slots[0 := Idle]);
    assert s.slots[0 := Dead][0 := Idle] == s.slots[0 := Idle];
    ShapeKept(cfg, s, Crash(0, 0));
    ShapeKept(cfg, s.(slots := s.slots[0 := Dead]), Revive(0));
    ShapeKept(cfg, s2, Pop(0));
    s3 := Popped(s2, 0);
  }

  lemma SubmitReaches(cfg: Config, s: State, j: JobId) returns (es: seq<Event>)
    requires Shape(cfg, s) && |s.slots| > 0 && j in s.submits
    requires j in s.st.rows && Coherent(s, j) && s.st.rows[j].status != FAILED_TRANSIENT
    ensures Undoes(cfg, s, es, j)
  {
    var e := SubmitPush(j, Ok);
    var next := PushDone(s, j, Ok);
    ShapeKept(cfg, s, e);
    assert Protocol.Apply(cfg, s, e) == next;
    var rest := PopReaches(cfg, next, 0, j);
    UndoesLater(cfg, s, e, next, rest, j);
    es := [e] + rest;
  }

  // ---- Slots about to bump the counter ----

  /** Bump by bump the cap is exceeded, and the slot that exceeds it orphans the job. */
  lemma BumpersOrphan(cfg: Config, s: State, j: JobId) returns (es: seq<Event>)
    requires Shape(cfg, s) && j in s.st.rows && Coherent(s, j) && s.st.rows[j].status == FAILED_TRANSIENT
    requires SumBy(s.slots, Bumping(j)) > 0
    requires LiveCount(s.st, j) + SumBy(s.slots, Bumping(j)) > REQUEUE_MAX
    ensures Undoes(cfg, s, es, j)
    decreases SumBy(s.slots, Bumping(j))
  {
    var i := SumByPositive(s.slots, Bumping(j));
    var e := SlotCall(i, Ok);
    var next := BumpedSlot(cfg, s, i, j);
    var rest: seq<Event>;
    if LiveCount(s.st, j) + 1 > REQUEUE_MAX {
      rest := ArmedSlotRewrites(cfg, next, i, j);
    } else {
      rest := BumpersOrphan(cfg, next, j);
    }
    UndoesLater(cfg, s, e, next, rest, j);
    es := [e] + rest;
  }

  lemma BumpedSlot(cfg: Config, s: State, i: nat, j: JobId) returns (next: State)
    requires Shape(cfg, s) && j in s.st.rows && Coherent(s, j)
    requires i < |s.slots| && s.slots[i].Busy? && s.slots[i].job == j && s.slots[i].pc.BumpCounter?
    ensures next.st.rows == s.st.rows && Coherent(next, j)
    ensures LiveCount(next.st, j) == LiveCount(s.st, j) + 1
    ensures i < |next.slots| && next.slots[i].Busy? && next.slots[i].job == j
    ensures LiveCount(s.st, j) + 1 > REQUEUE_MAX ==> next.slots[i].pc.FailWrite? && next.slots[i].pc.permanent
    ensures LiveCount(s.st, j) + 1 <= REQUEUE_MAX ==>
      SumBy(next.slots, Bumping(j)) == SumBy(s.slots, Bumping(j)) - 1
    ensures next == SlotCalled(cfg, s, i, Ok) && Shape(cfg, next)
  {
    var p := cfg.processOf[i];
    ShapeKept(cfg, s, SlotCall(i, Ok));
    StepBumps(Env(cfg.psv[p], cfg.post), s.st, s.buckets[p], j, s.slots[i].url);
    next := SlotCalled(cfg, s, i, Ok);
    InstalledBump(cfg, s, i, SlotNext(cfg, s, i, Ok), j);
  }

  lemma StepBumps(env: Env, st: Stores, b: Bucket, job: JobId, url: string)
    ensures var n := Step(env, st, b, job, url, BumpCounter, Ok);
      && n.st.rows == st.rows && LiveCount(n.st, job) == LiveCount(st, job) + 1
      && !n.pc.Done? && !n.pc.BumpCounter?
      && (LiveCount(st, job) + 1 > REQUEUE_MAX ==> n.pc.FailWrite? && n.pc.permanent)
  {
  }

  lemma InstalledBump(cfg: Config, s: State, i: nat, n: Next, j: JobId)
    requires Shape(cfg, s) && i < |s.slots| && s.slots[i].Busy? && s.slots[i].job == j
    requires s.slots[i].pc.BumpCounter? && !n.pc.Done? && !n.pc.BumpCounter?
    ensures SumBy(Installed(cfg, s, i, n, Ok).slots, Bumping(j)) == SumBy(s.slots, Bumping(j)) - 1
  {
    SumByUpdate(s.slots, i, SlotAfter(j, s.slots[i].url, n.pc), Bumping(j));
  }

  // ---- The theorem ----

  lemma Unsettle(cfg: Config, s: State, j: JobId) returns (es: seq<Event>)
    requires Shape(cfg, s) && |s.slots| > 0 && Coherent(s, j)
    requires j in s.st.rows && s.st.rows[j].status.Terminal() && !Settled(cfg, s, j)
    ensures Undoes(cfg, s, es, j)
  {
    if s.st.rows[j].status == FAILED_TRANSIENT {
      if !CountSafe(s, j) {
        es := BumpersOrphan(cfg, s, j);
      } else {
        var i :| 0 <= i < |s.slots| && s.slots[i].Busy? && s.slots[i].job == j && Armed(cfg.post, s.slots[i].pc);
        if s.slots[i].pc.AcquireToken? {
          es := RefilledSlotRewrites(cfg, s, i, j);
        } else {
          es := ArmedSlotRewrites(cfg, s, i, j);
        }
      }
    } else if m :| 0 <= m < |s.st.queue| && s.st.queue[m].job == j {
      es := PopReaches(cfg, s, m, j);
    } else if j in s.submits {
      es := SubmitReaches(cfg, s, j);
    } else if InSnapshot(s, j) {
      var k, n :| 0 <= k < |s.sweeps| && 0 <= n < |s.sweeps[k]| && s.sweeps[k][n].job == j;
      es := SweepReaches(cfg, s, k, n, j);
    } else {
      var i :| 0 <= i < |s.slots| && s.slots[i].Busy? && s.slots[i].job == j
        && !(s.slots[i].pc.FailWrite? && s.slots[i].pc.permanent && s.st.rows[j].status == FAILED_PERMANENT);
      es := SlotFallsThrough(cfg, s, i, j);
    }
  }

  /** A terminal status is final exactly in the settled states: there no run, however long
      and with whatever failures, shows another status while the row exists, and from
      every other state some run does. */
  lemma StatusFixedExactlyWhenSettled(cfg: Config, s: State, j: JobId)
    requires Shape(cfg, s) && |s.slots| > 0 && forall j :: Coherent(s, j)
    requires j in s.st.rows && s.st.rows[j].status.Terminal()
    ensures StatusFixed(cfg, s, j) <==> Settled(cfg, s, j)
  {
    assert Coherent(s, j);
    if Settled(cfg, s, j) {
      forall es | Valid(cfg, s, es) ensures !Changes(cfg, s, es, j) {
        FinalRun(cfg, s, es, j, s.st.rows[j].status);
      }
    } else {
      var es := Unsettle(cfg, s, j);
      assert Valid(cfg, s, es) && Changes(cfg, s, es, j);
    }
  }
}
