/** Conservation of queue messages: per job, and over the whole queue. */
module Messages {
  import opened Common
  import opened Schemas
  import opened JobsTable
  import opened SlotMachine
  import opened Protocol

  // ---- What one call does to the messages of its job ----

  /** The messages a slot still owes the queue, or one if it holds a job without having
      decided to yield it. */
  function Stake(pc: Pc): nat {
    match pc
    case Done => 0
    case YieldTouch(rounds) => if rounds > 1 then rounds else 1
    case YieldPush(rounds) => if rounds > 1 then rounds else 1
    case _ => 1
  }

  /** One call pushes at most one message, and a slot's stake only grows by a counter blip. */
  lemma StepConservesStake(env: Env, st: Stores, b: TokenBuckets.Bucket, job: JobId, url: string, pc: Pc, a: Answer)
    requires !pc.Done?
    ensures var n := Step(env, st, b, job, url, pc, a);
      || (n.st.queue == st.queue && Stake(n.pc) <= Stake(pc) + One(IsBlip(pc, n.pc)))
      || (n.st.queue == [Message(job, url)] + st.queue && Stake(n.pc) + 1 == Stake(pc) && pc.YieldPush?)
  {
  }

  // ---- Per job ----

  ghost function IsFor(j: JobId): Message -> nat {
    (m: Message) => One(m.job == j)
  }

  ghost function Holds(j: JobId): Slot -> nat {
    (x: Slot) => if x.Busy? && x.job == j then Stake(x.pc) else 0
  }

  /** Queued messages of `j`, plus slots and submits holding it. */
  ghost function Load(s: State, j: JobId): nat {
    SumBy(s.st.queue, IsFor(j)) + SumBy(s.slots, Holds(j)) + One(j in s.submits)
  }

  ghost predicate LoadBounded(s: State, j: JobId) {
    if j in s.log.used
    then Load(s, j) <= 1 + TallyOf(s.log, j).blips
    else Load(s, j) == 0 && TallyOf(s.log, j) == NOTHING
  }

  lemma PopMovesMessage(s: State, i: nat, j: JobId)
    requires i < |s.slots| && s.slots[i].Idle? && s.st.queue != []
    ensures Load(Popped(s, i), j) == Load(s, j)
  {
    SumBySnoc(s.st.queue, IsFor(j));
    SumByUpdate(s.slots, i, Popped(s, i).slots[i], Holds(j));
  }

  /** The queue is as before, or has one message of the slot's job more. */
  ghost predicate PushesAtMostOne(s: State, i: nat, n: Next)
    requires i < |s.slots| && s.slots[i].Busy?
  {
    || n.st.queue == s.st.queue
    || n.st.queue == [Message(s.slots[i].job, s.slots[i].url)] + s.st.queue
  }

  lemma CallMovesMessage(cfg: Config, s: State, i: nat, n: Next, a: Answer, j: JobId)
    requires Shape(cfg, s) && i < |s.slots| && s.slots[i].Busy? && PushesAtMostOne(s, i, n)
    requires |n.st.queue| + Stake(n.pc)
          <= |s.st.queue| + Stake(s.slots[i].pc) + One(IsBlip(s.slots[i].pc, n.pc))
    ensures Load(Installed(cfg, s, i, n, a), j)
         <= Load(s, j) + One(s.slots[i].job == j && IsBlip(s.slots[i].pc, n.pc))
  {
    SumByUpdate(s.slots, i, SlotAfter(s.slots[i].job, s.slots[i].url, n.pc), Holds(j));
    if n.st.queue != s.st.queue {
      assert n.st.queue[1..] == s.st.queue;
    }
  }

  lemma CallTally(cfg: Config, s: State, i: nat, n: Next, a: Answer, j: JobId)
    requires Shape(cfg, s) && i < |s.slots| && s.slots[i].Busy?
    ensures TallyOf(Installed(cfg, s, i, n, a).log, j)
         == if s.slots[i].job == j then Tallied(s.log, j, s.slots[i].pc, n.pc) else TallyOf(s.log, j)
  {
  }

  lemma CallKeepsLoadBounded(cfg: Config, s: State, i: nat, a: Answer, j: JobId)
    requires Shape(cfg, s) && i < |s.slots| && s.slots[i].Busy? && LoadBounded(s, j)
    ensures LoadBounded(SlotCalled(cfg, s, i, a), j)
  {
    var n, p := SlotNext(cfg, s, i, a), cfg.processOf[i];
    StepConservesStake(Env(cfg.psv[p], cfg.post), s.st, s.buckets[p], s.slots[i].job, s.slots[i].url, s.slots[i].pc, a);
    CallMovesMessage(cfg, s, i, n, a, j);
    CallTally(cfg, s, i, n, a, j);
    SumByMember(s.slots, i, Holds(j));
  }

  lemma LoadBoundedSubmit(cfg: Config, s: State, e: Event, j: JobId)
    requires IsSubmit(e) && Enabled(s, cfg, e) && LoadBounded(s, j)
    ensures LoadBounded(Submitted(s, cfg, e), j)
  {
    if e.SubmitPush? && e.a.Ok? {
      assert Submitted(s, cfg, e).st.queue[1..] == s.st.queue;
    }
  }

  lemma LoadBoundedPool(cfg: Config, s: State, e: Event, j: JobId)
    requires IsPool(e) && Enabled(s, cfg, e) && LoadBounded(s, j)
    ensures LoadBounded(Pooled(s, cfg, e), j)
  {
    match e
    case Pop(i) =>
      PopMovesMessage(s, i, j);
      SumBySnoc(s.st.queue, IsFor(j));
      assert j !in s.log.used ==> IsFor(j)(s.st.queue[|s.st.queue| - 1]) == 0;
    case Crash(i, _) => SumByUpdate(s.slots, i, Dead, Holds(j));
    case Revive(i) => SumByUpdate(s.slots, i, Idle, Holds(j));
  }

  lemma LoadBoundedStep(cfg: Config, s: State, e: Event, j: JobId)
    requires Shape(cfg, s) && Enabled(s, cfg, e) && LoadBounded(s, j)
    ensures LoadBounded(Apply(cfg, s, e), j)
  {
    if e.SlotCall? {
      CallKeepsLoadBounded(cfg, s, e.slot, e.a, j);
    } else if IsSubmit(e) {
      LoadBoundedSubmit(cfg, s, e, j);
    } else if IsPool(e) {
      LoadBoundedPool(cfg, s, e, j);
    } else {
      UpkeepFrame(s, cfg, e);
    }
  }

  lemma LoadBoundedInit(cfg: Config, s: State, j: JobId)
    requires Init(cfg, s)
    ensures LoadBounded(s, j)
  {
    SumByZero(s.slots, Holds(j));
  }

  lemma {:induction false} LoadBoundedRun(cfg: Config, s: State, es: seq<Event>, j: JobId)
    requires Shape(cfg, s) && Valid(cfg, s, es) && LoadBounded(s, j)
    ensures LoadBounded(Run(cfg, s, es), j)
    decreases |es|
  {
    if es == [] {
    } else {
      LoadBoundedStep(cfg, s, es[0], j);
      ShapeKept(cfg, s, es[0]);
      LoadBoundedRun(cfg, Apply(cfg, s, es[0]), es[1..], j);
    }
  }

  /** Message conservation: in every reachable state the messages of a job, queued or in
      somebody's hands, number at most one more than the counter calls that failed for it. */
  lemma MessageConservation(cfg: Config, s: State, es: seq<Event>, j: JobId)
    requires Init(cfg, s) && Valid(cfg, s, es)
    ensures Load(Run(cfg, s, es), j) <= 1 + TallyOf(Run(cfg, s, es).log, j).blips
  {
    LoadBoundedInit(cfg, s, j);
    LoadBoundedRun(cfg, s, es, j);
  }

  /** Without such a failure a push ends the hold: the slot is idle after it, and neither
      it nor anybody else but the message just queued stands for the job. */
  lemma PushEndsHold(cfg: Config, s0: State, es: seq<Event>, i: nat, j: JobId)
    requires Init(cfg, s0) && Valid(cfg, s0, es)
    requires var s := Run(cfg, s0, es);
      && i < |s.slots| && s.slots[i].Busy? && s.slots[i].job == j && s.slots[i].pc.YieldPush?
      && TallyOf(s.log, j).blips == 0
    ensures var s := Run(cfg, s0, es);
      && Shape(cfg, s)
      && SlotCalled(cfg, s, i, Ok).slots[i] == Idle
      && SumBy(SlotCalled(cfg, s, i, Ok).slots, Holds(j)) == 0
  {
    var s := Run(cfg, s0, es);
    ShapeAfter(cfg, s0, es);
    MessageConservation(cfg, s0, es, j);
    SumByMember(s.slots, i, Holds(j));
    assert SlotCalled(cfg, s, i, Ok).slots[i] == Idle;
    SumByUpdate(s.slots, i, Idle, Holds(j));
  }

  /** One touch and one push: a message more in the queue, one round less in the slot. */
  lemma YieldRound(cfg: Config, s: State, i: nat, rounds: nat) returns (es: seq<Event>, t: State)
    requires Shape(cfg, s) && i < |s.slots| && s.slots[i].Busy? && s.slots[i].pc == YieldTouch(rounds)
    ensures |t.slots| == |s.slots|
    ensures t.slots[i] == (if rounds > 1 then s.slots[i].(pc := YieldTouch(rounds - 1)) else Idle)
    ensures t.st.queue == [Message(s.slots[i].job, s.slots[i].url)] + s.st.queue
    ensures TallyOf(t.log, s.slots[i].job) == TallyOf(s.log, s.slots[i].job)
    ensures Valid(cfg, s, es) && t == Run(cfg, s, es) && Shape(cfg, t)
  {
    var touched := TouchDone(cfg, s, i, rounds);
    t := PushDoneBySlot(cfg, touched, i, rounds);
    CallFirst(cfg, touched, i, Ok, []);
    CallFirst(cfg, s, i, Ok, [SlotCall(i, Ok)] + []);
    es := [SlotCall(i, Ok)] + ([SlotCall(i, Ok)] + []);
  }

  lemma TouchDone(cfg: Config, s: State, i: nat, rounds: nat) returns (next: State)
    requires Shape(cfg, s) && i < |s.slots| && s.slots[i].Busy? && s.slots[i].pc == YieldTouch(rounds)
    ensures next == SlotCalled(cfg, s, i, Ok) && Shape(cfg, next)
    ensures next.slots[i] == s.slots[i].(pc := YieldPush(rounds)) && next.st.queue == s.st.queue
    ensures TallyOf(next.log, s.slots[i].job) == TallyOf(s.log, s.slots[i].job)
  {
    next := SlotCalled(cfg, s, i, Ok);
    ShapeKept(cfg, s, SlotCall(i, Ok));
  }

  lemma PushDoneBySlot(cfg: Config, s: State, i: nat, rounds: nat) returns (next: State)
    requires Shape(cfg, s) && i < |s.slots| && s.slots[i].Busy? && s.slots[i].pc == YieldPush(rounds)
    ensures next == SlotCalled(cfg, s, i, Ok) && Shape(cfg, next)
    ensures next.slots[i] == if rounds > 1 then s.slots[i].(pc := YieldTouch(rounds - 1)) else Idle
    ensures next.st.queue == [Message(s.slots[i].job, s.slots[i].url)] + s.st.queue
    ensures TallyOf(next.log, s.slots[i].job) == TallyOf(s.log, s.slots[i].job)
  {
    next := SlotCalled(cfg, s, i, Ok);
    ShapeKept(cfg, s, SlotCall(i, Ok));
  }

  lemma TwoYieldRounds(cfg: Config, s: State, i: nat) returns (es: seq<Event>, t: State)
    requires Shape(cfg, s) && i < |s.slots| && s.slots[i].Busy? && s.slots[i].pc == YieldTouch(2)
    ensures |t.slots| == |s.slots| && t.slots[i] == Idle
    ensures var m := Message(s.slots[i].job, s.slots[i].url);
      t.st.queue == [m] + ([m] + s.st.queue) && TallyOf(t.log, m.job) == TallyOf(s.log, m.job)
    ensures Valid(cfg, s, es) && t == Run(cfg, s, es) && Shape(cfg, t)
  {
    var e1, s1 := YieldRound(cfg, s, i, 2);
    var e2, s2 := YieldRound(cfg, s1, i, 1);
    RunAppend(cfg, s, e1, e2);
    es, t := e1 + e2, s2;
  }

  /** The bound is attained: after one failed counter call a job is queued twice. */
  lemma BlipDuplicates(cfg: Config, s: State, i: nat) returns (es: seq<Event>, t: State)
    requires Shape(cfg, s) && i < |s.slots| && s.slots[i].Busy? && s.slots[i].pc.BumpCounter?
    ensures |t.slots| == |s.slots| && t.slots[i] == Idle
    ensures var j := s.slots[i].job;
      && SumBy(t.st.queue, IsFor(j)) == SumBy(s.st.queue, IsFor(j)) + 2
      && TallyOf(t.log, j).blips == TallyOf(s.log, j).blips + 1
    ensures Valid(cfg, s, es) && t == Run(cfg, s, es) && Shape(cfg, t)
  {
    var m, a := Message(s.slots[i].job, s.slots[i].url), Unavailable("");
    var blipped := CounterBlips(cfg, s, i, a);
    var rest;
    rest, t := TwoYieldRounds(cfg, blipped, i);
    es := [SlotCall(i, a)] + rest;
    CallFirst(cfg, s, i, a, rest);
    CountPair(m, s.st.queue, t.st.queue);
  }

  lemma CountPair(m: Message, q: seq<Message>, longer: seq<Message>)
    requires longer == [m] + ([m] + q)
    ensures SumBy(longer, IsFor(m.job)) == SumBy(q, IsFor(m.job)) + 2
  {
    assert longer == [m, m] + q;
    SumByAppend([m, m], q, IsFor(m.job));
    assert [m, m][1..] == [m];
  }

  lemma CounterBlips(cfg: Config, s: State, i: nat, a: Answer) returns (blipped: State)
    requires Shape(cfg, s) && i < |s.slots| && s.slots[i].Busy? && s.slots[i].pc.BumpCounter?
    requires a.Unavailable?
    ensures blipped == SlotCalled(cfg, s, i, a) && Shape(cfg, blipped)
    ensures blipped.slots[i] == s.slots[i].(pc := YieldTouch(2)) && blipped.st == s.st
    ensures TallyOf(blipped.log, s.slots[i].job).blips == TallyOf(s.log, s.slots[i].job).blips + 1
  {
    var n := SlotNext(cfg, s, i, a);
    assert n.pc == BLIP && n.st == s.st;
    blipped := SlotCalled(cfg, s, i, a);
    ShapeKept(cfg, s, SlotCall(i, a));
  }

  // ---- The whole queue ----

  ghost function Stakes(): Slot -> nat {
    (x: Slot) => if x.Busy? then Stake(x.pc) else 0
  }

  ghost function Duplicates(): Slot -> nat {
    (x: Slot) => if x.Busy? && Stake(x.pc) > 1 then Stake(x.pc) - 1 else 0
  }

  ghost function Unit(): Slot -> nat {
    (x: Slot) => 1
  }

  ghost function InFlight(s: State): nat {
    |s.st.queue| + SumBy(s.slots, Stakes()) + |s.submits|
  }

  ghost function QueueLimit(cfg: Config, s: State): nat {
    BACKPRESSURE_QUEUE_REJECT - 1 + |cfg.processOf| + cfg.maxSubmits + s.log.failOpens + s.log.blips
  }

  ghost predicate QueueBounded(cfg: Config, s: State) {
    && InFlight(s) <= QueueLimit(cfg, s)
    && SumBy(s.slots, Duplicates()) <= s.log.blips
    && |s.submits| <= cfg.maxSubmits
  }

  lemma {:induction false} SumByUnit(slots: seq<Slot>)
    ensures SumBy(slots, Unit()) == |slots|
  {
    if slots == [] {
    } else {
      SumByUnit(slots[1..]);
    }
  }

  lemma WithoutSize<K, V>(m: map<K, V>, k: K)
    requires k in m
    ensures |Without(m, k)| == |m| - 1
  {
    assert Without(m, k).Keys == m.Keys - {k};
    assert |Without(m, k)| == |Without(m, k).Keys|;
    assert |m| == |m.Keys|;
  }

  lemma WithKeySize<K, V>(m: map<K, V>, k: K, v: V)
    ensures |m[k := v]| == |m| + One(k !in m)
  {
    assert m[k := v].Keys == m.Keys + {k};
    assert |m[k := v]| == |m[k := v].Keys| && |m| == |m.Keys|;
    if k in m {
      assert m.Keys + {k} == m.Keys;
    }
  }

  /** At an admission by depth the slots hold at most one job each, plus the duplicates. */
  lemma CheckKeepsBound(cfg: Config, s: State, job: JobId, url: string, a: Answer)
    requires Shape(cfg, s) && Enabled(s, cfg, SubmitCheck(job, url, a)) && QueueBounded(cfg, s)
    ensures QueueBounded(cfg, Checked(s, job, url, a))
  {
    WithKeySize(s.submits, job, Admitted(url));
    SumByAdd(s.slots, Unit(), Duplicates(), Stakes());
    SumByUnit(s.slots);
  }

  lemma CallKeepsBound(cfg: Config, s: State, i: nat, n: Next, a: Answer)
    requires Shape(cfg, s) && i < |s.slots| && s.slots[i].Busy? && QueueBounded(cfg, s)
    requires PushesAtMostOne(s, i, n)
    requires |n.st.queue| + Stake(n.pc)
          <= |s.st.queue| + Stake(s.slots[i].pc) + One(IsBlip(s.slots[i].pc, n.pc))
    ensures QueueBounded(cfg, Installed(cfg, s, i, n, a))
  {
    var after := SlotAfter(s.slots[i].job, s.slots[i].url, n.pc);
    SumByUpdate(s.slots, i, after, Stakes());
    SumByUpdate(s.slots, i, after, Duplicates());
  }

  lemma CallKeepsQueueBounded(cfg: Config, s: State, i: nat, a: Answer)
    requires Shape(cfg, s) && i < |s.slots| && s.slots[i].Busy? && QueueBounded(cfg, s)
    ensures QueueBounded(cfg, SlotCalled(cfg, s, i, a))
  {
    var p := cfg.processOf[i];
    StepConservesStake(Env(cfg.psv[p], cfg.post), s.st, s.buckets[p], s.slots[i].job, s.slots[i].url, s.slots[i].pc, a);
    CallKeepsBound(cfg, s, i, SlotNext(cfg, s, i, a), a);
  }

  lemma QueueBoundedSubmit(cfg: Config, s: State, e: Event)
    requires Shape(cfg, s) && IsSubmit(e) && Enabled(s, cfg, e) && QueueBounded(cfg, s)
    ensures QueueBounded(cfg, Submitted(s, cfg, e))
  {
    match e
    case SubmitCheck(job, url, a) => CheckKeepsBound(cfg, s, job, url, a);
    case SubmitInsert(job, a) =>
      WithoutSize(s.submits, job);
      WithKeySize(s.submits, job, Stored(s.submits[job].url));
    case SubmitPush(job, _) => WithoutSize(s.submits, job);
    case SubmitDrop(job) => WithoutSize(s.submits, job);
  }

  lemma QueueBoundedPool(cfg: Config, s: State, e: Event)
    requires Shape(cfg, s) && IsPool(e) && Enabled(s, cfg, e) && QueueBounded(cfg, s)
    ensures QueueBounded(cfg, Pooled(s, cfg, e))
  {
    var i := e.slot;
    SumByUpdate(s.slots, i, Pooled(s, cfg, e).slots[i], Stakes());
    SumByUpdate(s.slots, i, Pooled(s, cfg, e).slots[i], Duplicates());
  }

  lemma QueueBoundedStep(cfg: Config, s: State, e: Event)
    requires Shape(cfg, s) && Enabled(s, cfg, e) && QueueBounded(cfg, s)
    ensures QueueBounded(cfg, Apply(cfg, s, e))
  {
    if e.SlotCall? {
      CallKeepsQueueBounded(cfg, s, e.slot, e.a);
    } else if IsSubmit(e) {
      QueueBoundedSubmit(cfg, s, e);
    } else if IsPool(e) {
      QueueBoundedPool(cfg, s, e);
    } else {
      UpkeepFrame(s, cfg, e);
    }
  }

  lemma {:induction false} QueueBoundedRun(cfg: Config, s: State, es: seq<Event>)
    requires Shape(cfg, s) && Valid(cfg, s, es) && QueueBounded(cfg, s)
    ensures QueueBounded(cfg, Run(cfg, s, es))
    decreases |es|
  {
    if es == [] {
    } else {
      QueueBoundedStep(cfg, s, es[0]);
      ShapeKept(cfg, s, es[0]);
      QueueBoundedRun(cfg, Apply(cfg, s, es[0]), es[1..]);
    }
  }

  /** First in, first out: whatever happens, the queue stays as it is, or gets one message in front, or
      loses the one at its end to the slot that takes it. */
  lemma QueueIsFifo(cfg: Config, s: State, e: Event)
    requires Shape(cfg, s) && Enabled(s, cfg, e)
    ensures var t := Apply(cfg, s, e);
      || t.st.queue == s.st.queue
      || (exists m :: t.st.queue == [m] + s.st.queue)
      || (e.Pop? && t.slots[e.slot].Busy? && t.slots[e.slot].pc == ReadStatus
          && s.st.queue == t.st.queue + [Message(t.slots[e.slot].job, t.slots[e.slot].url)])
    ensures e.Pop? ==> |Apply(cfg, s, e).st.queue| == |s.st.queue| - 1
  {
    if e.SlotCall? {
      var p := cfg.processOf[e.slot];
      var Busy(job, url, pc) := s.slots[e.slot];
      StepConservesStake(Env(cfg.psv[p], cfg.post), s.st, s.buckets[p], job, url, pc, e.a);
    } else if IsUpkeep(e) {
      UpkeepFrame(s, cfg, e);
    }
  }

  /** Queue bound under every interleaving, although the depth check and the push are two
      separate calls and re-pushes by workers are not checked at all. */
  lemma QueueDepthBound(cfg: Config, s: State, es: seq<Event>)
    requires Init(cfg, s) && Valid(cfg, s, es)
    ensures |Run(cfg, s, es).st.queue|
         <= BACKPRESSURE_QUEUE_REJECT - 1 + |cfg.processOf| + cfg.maxSubmits
            + Run(cfg, s, es).log.failOpens + Run(cfg, s, es).log.blips
  {
    SumByZero(s.slots, Stakes());
    SumByZero(s.slots, Duplicates());
    QueueBoundedRun(cfg, s, es);
  }
}
