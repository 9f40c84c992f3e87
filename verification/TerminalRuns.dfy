/** Which runs make every terminal status final, and a run that does not. */
module TerminalRuns {
  import opened Common
  import opened Schemas
  import opened JobsTable
  import opened TokenBuckets
  import opened SlotMachine
  import opened Protocol
  import opened Messages
  import opened Terminal
  import opened TerminalExact

  /** In no state of the run does a sweeper still have `j` to write while a slot holds it,
      and no counter call has failed for `j`. */
  ghost predicate Undisturbed(cfg: Config, s: State, es: seq<Event>, j: JobId)
    requires Shape(cfg, s) && Valid(cfg, s, es)
    decreases |es|
  {
    && !(InSnapshot(s, j) && Held(s, j))
    && TallyOf(s.log, j).blips == 0
    && (es != [] ==>
          (ShapeKept(cfg, s, es[0]); Undisturbed(cfg, Protocol.Apply(cfg, s, es[0]), es[1..], j)))
  }

  // ---- The step that makes a row terminal ----

  /** A state in which nothing stands for `j` is settled, whatever its terminal status. */
  lemma NoLoadIsSettled(cfg: Config, s: State, j: JobId)
    requires Shape(cfg, s) && j in s.st.rows && Load(s, j) == 0 && !InSnapshot(s, j)
    ensures Settled(cfg, s, j) && !Held(s, j)
  {
    forall i | 0 <= i < |s.st.queue| ensures s.st.queue[i].job != j {
      SumByMember(s.st.queue, i, IsFor(j));
    }
    forall i | 0 <= i < |s.slots| ensures !(s.slots[i].Busy? && s.slots[i].job == j) {
      SumByMember(s.slots, i, Holds(j));
    }
    BumpingHolds(s.slots, j);
  }

  lemma {:induction false} BumpingHolds(slots: seq<Slot>, j: JobId)
    ensures SumBy(slots, Bumping(j)) <= SumBy(slots, Holds(j))
  {
    if slots == [] {
    } else {
      BumpingHolds(slots[1..], j);
    }
  }

  /** The only holder of a job, writing its terminal status, leaves nothing behind. */
  lemma LastWriteLeavesNoLoad(cfg: Config, s: State, i: nat, n: Next, a: Answer, j: JobId)
    requires Shape(cfg, s) && i < |s.slots| && s.slots[i].Busy? && s.slots[i].job == j
    requires Load(s, j) <= 1 && n.pc.Done? && n.st.queue == s.st.queue
    ensures Load(Installed(cfg, s, i, n, a), j) == 0
  {
    SumByUpdate(s.slots, i, Idle, Holds(j));
    SumByMember(s.slots, i, Holds(j));
  }

  lemma StepToTerminalIsLast(env: Env, st: Stores, b: Bucket, job: JobId, url: string, pc: Pc, a: Answer)
    requires !pc.Done? && a.Ok? && Target(pc).Some? && Target(pc).value.Terminal()
    ensures var n := Step(env, st, b, job, url, pc, a); n.pc.Done? && n.st.queue == st.queue
  {
  }

  lemma CallSettles(cfg: Config, s: State, i: nat, a: Answer, j: JobId)
    requires Shape(cfg, s) && i < |s.slots| && s.slots[i].Busy?
    requires Coherent(s, j) && Coherent(s, s.slots[i].job) && Load(s, j) <= 1
    requires !(InSnapshot(s, j) && Held(s, j))
    requires j in s.st.rows && !s.st.rows[j].status.Terminal()
    requires var t := SlotCalled(cfg, s, i, a); j in t.st.rows && t.st.rows[j].status.Terminal()
    ensures var t := SlotCalled(cfg, s, i, a); Settled(cfg, t, j) && !Held(t, j)
  {
    var n, p := SlotNext(cfg, s, i, a), cfg.processOf[i];
    var Busy(job, url, pc) := s.slots[i];
    StepWritesOwnRow(Env(cfg.psv[p], cfg.post), s.st, s.buckets[p], job, url, pc, a);
    StepToTerminalIsLast(Env(cfg.psv[p], cfg.post), s.st, s.buckets[p], job, url, pc, a);
    assert Held(s, j);
    LastWriteLeavesNoLoad(cfg, s, i, n, a, j);
    ShapeKept(cfg, s, SlotCall(i, a));
    NoLoadIsSettled(cfg, SlotCalled(cfg, s, i, a), j);
  }

  lemma UpkeepSettles(cfg: Config, s: State, e: Event, j: JobId)
    requires IsUpkeep(e) && Enabled(s, cfg, e)
    requires !(InSnapshot(s, j) && Held(s, j))
    requires j in s.st.rows && !s.st.rows[j].status.Terminal()
    requires var t := Upkept(s, cfg, e); j in t.st.rows && t.st.rows[j].status.Terminal()
    ensures var t := Upkept(s, cfg, e); Settled(cfg, t, j) && t.st.rows[j].status == FAILED_TRANSIENT
  {
    assert e.SweepWrite? && s.sweeps[e.sweeper][0].job == j;
    assert InSnapshot(s, j);
    UpkeepFrame(s, cfg, e);
    SumByZero(s.slots, Bumping(j));
  }

  lemma SubmitKeepsOrStarts(cfg: Config, s: State, e: Event, j: JobId)
    requires IsSubmit(e) && Enabled(s, cfg, e)
    ensures var t := Submitted(s, cfg, e);
      j in t.st.rows ==>
        if j in s.st.rows then t.st.rows[j] == s.st.rows[j] else t.st.rows[j].status == PENDING
  {
  }

  lemma UpkeepInsertsNothing(cfg: Config, s: State, e: Event)
    requires IsUpkeep(e) && Enabled(s, cfg, e)
    ensures Upkept(s, cfg, e).st.rows.Keys <= s.st.rows.Keys
  {
  }

  /** A terminal row is settled, and if a slot wrote its last status for good, no slot has the job. */
  ghost predicate SettledIfTerminal(cfg: Config, s: State, j: JobId) {
    j in s.st.rows && s.st.rows[j].status.Terminal() ==>
      Settled(cfg, s, j) && (s.st.rows[j].status != FAILED_TRANSIENT ==> Resting(cfg, s, j))
  }

  lemma SettledIfTerminalStep(cfg: Config, s: State, e: Event, j: JobId)
    requires Shape(cfg, s) && Enabled(s, cfg, e) && forall j :: Coherent(s, j)
    requires SettledIfTerminal(cfg, s, j) && LoadBounded(s, j)
    requires !(InSnapshot(s, j) && Held(s, j)) && TallyOf(s.log, j).blips == 0
    ensures SettledIfTerminal(cfg, Protocol.Apply(cfg, s, e), j)
  {
    assert Coherent(s, j);
    if j in s.st.rows && s.st.rows[j].status.Terminal() {
      StaysSettled(cfg, s, e, j);
    } else {
      BecomesSettled(cfg, s, e, j);
    }
  }

  lemma StaysSettled(cfg: Config, s: State, e: Event, j: JobId)
    requires Shape(cfg, s) && Enabled(s, cfg, e) && Coherent(s, j)
    requires e.SlotCall? ==> Coherent(s, s.slots[e.slot].job)
    requires j in s.st.rows && s.st.rows[j].status.Terminal() && SettledIfTerminal(cfg, s, j)
    ensures SettledIfTerminal(cfg, Protocol.Apply(cfg, s, e), j)
  {
    if s.st.rows[j].status == FAILED_TRANSIENT {
      FinalStep(cfg, s, e, j, FAILED_TRANSIENT);
    } else {
      RestingStep(cfg, s, e, j);
    }
  }

  lemma BecomesSettled(cfg: Config, s: State, e: Event, j: JobId)
    requires Shape(cfg, s) && Enabled(s, cfg, e) && Coherent(s, j)
    requires e.SlotCall? ==> Coherent(s, s.slots[e.slot].job)
    requires j in s.st.rows ==> !s.st.rows[j].status.Terminal()
    requires LoadBounded(s, j) && !(InSnapshot(s, j) && Held(s, j)) && TallyOf(s.log, j).blips == 0
    ensures SettledIfTerminal(cfg, Protocol.Apply(cfg, s, e), j)
  {
    var t := Protocol.Apply(cfg, s, e);
    if j in t.st.rows && t.st.rows[j].status.Terminal() {
      if e.SlotCall? {
        var i, p := e.slot, cfg.processOf[e.slot];
        var Busy(job, url, pc) := s.slots[i];
        StepWritesOwnRow(Env(cfg.psv[p], cfg.post), s.st, s.buckets[p], job, url, pc, e.a);
        CallSettles(cfg, s, i, e.a, j);
      } else if IsSubmit(e) {
        SubmitKeepsOrStarts(cfg, s, e, j);
      } else if IsUpkeep(e) {
        UpkeepInsertsNothing(cfg, s, e);
        UpkeepSettles(cfg, s, e, j);
      }
    }
  }

  lemma {:induction false} SettledIfTerminalRun(cfg: Config, s: State, es: seq<Event>, j: JobId)
    requires Shape(cfg, s) && Valid(cfg, s, es) && forall j :: Coherent(s, j)
    requires SettledIfTerminal(cfg, s, j) && LoadBounded(s, j) && Undisturbed(cfg, s, es, j)
    ensures SettledIfTerminal(cfg, Run(cfg, s, es), j)
    decreases |es|
  {
    if es == [] {
    } else {
      SettledIfTerminalStep(cfg, s, es[0], j);
      LoadBoundedStep(cfg, s, es[0], j);
      CoherentStep(cfg, s, es[0]);
      ShapeKept(cfg, s, es[0]);
      SettledIfTerminalRun(cfg, Protocol.Apply(cfg, s, es[0]), es[1..], j);
    }
  }

  /** Terminal statuses are absorbing: after an undisturbed run a terminal row keeps its
      status, and a SUCCEEDED or FAILED_PERMANENT row all it holds, through every continuation,
      disturbed or not, until it is purged. */
  lemma TerminalAbsorbing(cfg: Config, s0: State, es: seq<Event>, s: State, fs: seq<Event>, t: State, j: JobId)
    requires Init(cfg, s0) && Valid(cfg, s0, es) && s == Run(cfg, s0, es) && Undisturbed(cfg, s0, es, j)
    requires Shape(cfg, s) && Valid(cfg, s, fs) && t == Run(cfg, s, fs)
    requires j in s.st.rows && s.st.rows[j].status.Terminal()
    ensures j in t.st.rows ==> t.st.rows[j].status == s.st.rows[j].status
    ensures j in t.st.rows && s.st.rows[j].status != FAILED_TRANSIENT ==> t.st.rows[j] == s.st.rows[j]
    ensures j !in t.st.rows ==> Gone(t, j)
  {
    LoadBoundedInit(cfg, s0, j);
    SettledIfTerminalRun(cfg, s0, es, j);
    CoherentRun(cfg, s0, es);
    assert Coherent(s, j);
    FinalRun(cfg, s, fs, j, s.st.rows[j].status);
    if s.st.rows[j].status != FAILED_TRANSIENT {
      RestingRun(cfg, s, fs, j);
    }
  }

  // ---- Two runs ----

  const ONE_SLOT := Protocol.Config.Config(r => Some(r), ["v1"], [0], 1)

  const BOOTED := State(
    Stores(map[], [], map[], map[], 0.0), [Idle], map[], [[]], [Bucket(0.0, 0, 0.0, 0.0)],
    Log({}, map[], 0, 0, {}, {}, map[], [GeminiTally(0, 0)]))

  /** `t` is `s` but for the table, the queue and the submits. */
  ghost predicate OnlySubmitted(cfg: Config, s: State, t: State) {
    && Shape(cfg, t) && t.slots == s.slots && t.sweeps == s.sweeps && t.st.now == s.st.now
    && t.log.tally == s.log.tally
  }

  lemma CheckNow(cfg: Config, s: State, job: JobId, url: string) returns (t: State)
    requires Shape(cfg, s) && Enabled(s, cfg, SubmitCheck(job, url, Ok)) && s.st.queue == []
    ensures t == Protocol.Apply(cfg, s, SubmitCheck(job, url, Ok)) && OnlySubmitted(cfg, s, t)
    ensures t.st == s.st && job in t.submits && t.submits[job] == Admitted(url)
  {
    t := Checked(s, job, url, Ok);
  }

  lemma InsertNow(cfg: Config, s: State, job: JobId, url: string) returns (t: State)
    requires Shape(cfg, s) && job in s.submits && s.submits[job] == Admitted(url) && job !in s.st.rows
    ensures t == Protocol.Apply(cfg, s, SubmitInsert(job, Ok)) && OnlySubmitted(cfg, s, t)
    ensures t.st == s.st.(rows := Inserted(s.st.rows, job, url, s.st.now))
    ensures job in t.submits && t.submits[job] == Stored(url)
  {
    t := InsertDone(s, job, Ok);
  }

  lemma PushNow(cfg: Config, s: State, job: JobId, url: string) returns (t: State)
    requires Shape(cfg, s) && job in s.submits && s.submits[job] == Stored(url)
    ensures t == Protocol.Apply(cfg, s, SubmitPush(job, Ok)) && OnlySubmitted(cfg, s, t)
    ensures t.st == Pushed(s.st, job, url)
  {
    t := PushDone(s, job, Ok);
  }

  function SubmitEvents(job: JobId, url: string): seq<Event> {
    [SubmitCheck(job, url, Ok)] + ([SubmitInsert(job, Ok)] + ([SubmitPush(job, Ok)] + []))
  }

  /** A submit from the check to the push. */
  lemma SubmitNow(cfg: Config, s: State, job: JobId, url: string) returns (t: State)
    requires Shape(cfg, s) && Enabled(s, cfg, SubmitCheck(job, url, Ok)) && s.st.queue == [] && job !in s.st.rows
    ensures t.st == Pushed(s.st.(rows := Inserted(s.st.rows, job, url, s.st.now)), job, url)
    ensures OnlySubmitted(cfg, s, t)
    ensures Valid(cfg, s, SubmitEvents(job, url)) && t == Run(cfg, s, SubmitEvents(job, url))
  {
    var s1 := CheckNow(cfg, s, job, url);
    var s2 := InsertNow(cfg, s1, job, url);
    t := PushNow(cfg, s2, job, url);
    RunFirst(cfg, s2, SubmitPush(job, Ok), t, []);
    RunFirst(cfg, s1, SubmitInsert(job, Ok), s2, [SubmitPush(job, Ok)] + []);
    RunFirst(cfg, s, SubmitCheck(job, url, Ok), s1, [SubmitInsert(job, Ok)] + ([SubmitPush(job, Ok)] + []));
  }

  /** Job 0 is accepted and queued. */
  lemma Accept() returns (es: seq<Event>, s: State)
    ensures s.st.rows == Inserted(map[], 0, "u", 0.0) && s.st.queue == [Message(0, "u")] && s.st.now == 0.0
    ensures s.slots == [Idle] && s.sweeps == [[]] && s.log.tally == map[]
    ensures Init(ONE_SLOT, BOOTED) && Valid(ONE_SLOT, BOOTED, es)
    ensures s == Run(ONE_SLOT, BOOTED, es) && Shape(ONE_SLOT, s)
  {
    es := SubmitEvents(0, "u");
    s := SubmitNow(ONE_SLOT, BOOTED, 0, "u");
  }

  /** The slot takes it and reads PENDING. */
  lemma Take(s: State) returns (es: seq<Event>, t: State)
    requires Shape(ONE_SLOT, s) && s.slots == [Idle] && s.st.queue == [Message(0, "u")]
    requires s.st.rows == Inserted(map[], 0, "u", 0.0) && s.log.tally == map[]
    ensures t.slots == [Busy(0, "u", MarkProcessing(None))]
    ensures t.st.rows == s.st.rows && t.st.now == s.st.now && t.sweeps == s.sweeps
    ensures TallyOf(t.log, 0).blips == 0
    ensures Valid(ONE_SLOT, s, es) && t == Run(ONE_SLOT, s, es) && Shape(ONE_SLOT, t)
  {
    var s1 := Popped(s, 0);
    assert Protocol.Apply(ONE_SLOT, s, Pop(0)) == s1;
    ShapeKept(ONE_SLOT, s, Pop(0));
    assert s1.slots == [Busy(0, "u", ReadStatus)];
    t := ReadNow(ONE_SLOT, s1);
    CallFirst(ONE_SLOT, s1, 0, Ok, []);
    RunFirst(ONE_SLOT, s, Pop(0), s1, [SlotCall(0, Ok)] + []);
    es := [Pop(0)] + ([SlotCall(0, Ok)] + []);
  }

  /** One call of the only slot, to a place that is not a blip. */
  lemma CallNow(cfg: Config, s: State, a: Answer, pc: Pc, n: Next) returns (t: State)
    requires Shape(cfg, s) && s.slots == [Busy(0, "u", pc)] && n == SlotNext(cfg, s, 0, a)
    requires !n.pc.Done? && n.pc != BLIP
    ensures t == SlotCalled(cfg, s, 0, a) && Shape(cfg, t) && t.slots == [Busy(0, "u", n.pc)]
    ensures t.st == n.st && t.sweeps == s.sweeps && TallyOf(t.log, 0).blips == TallyOf(s.log, 0).blips
  {
    t := Installed(cfg, s, 0, n, a);
    ShapeInstalled(cfg, s, 0, n, a);
    CallTally(cfg, s, 0, n, a, 0);
  }

  /** Three steps of the machine, from where they start. */
  lemma FirstSteps(env: Env, st: Stores, b: Bucket, job: JobId, url: string)
    ensures job in st.rows && !st.rows[job].status.Terminal() ==>
      Step(env, st, b, job, url, ReadStatus, Ok) == Next(st, b, MarkProcessing(st.rows[job].phash))
    ensures Step(env, st, b, job, url, MarkProcessing(None), Ok).pc == Download(None)
    ensures Step(env, st, b, job, url, Download(None), Unavailable("")).pc == BumpCounter
  {
  }

  lemma ReadNow(cfg: Config, s: State) returns (t: State)
    requires Shape(cfg, s) && s.slots == [Busy(0, "u", ReadStatus)]
    requires s.st.rows == Inserted(map[], 0, "u", 0.0)
    ensures t == SlotCalled(cfg, s, 0, Ok) && Shape(cfg, t)
    ensures t.slots == [Busy(0, "u", MarkProcessing(None))]
    ensures t.st == s.st && t.sweeps == s.sweeps && TallyOf(t.log, 0).blips == TallyOf(s.log, 0).blips
  {
    var p := cfg.processOf[0];
    FirstSteps(Env(cfg.psv[p], cfg.post), s.st, s.buckets[p], 0, "u");
    t := CallNow(cfg, s, Ok, ReadStatus, SlotNext(cfg, s, 0, Ok));
  }

  /** Half an hour passes before the slot's next call, and a sweep fails the job. */
  lemma SweepMeanwhile(s: State) returns (es: seq<Event>, t: State)
    requires Shape(ONE_SLOT, s) && s.sweeps == [[]] && s.st.now == 0.0
    requires s.st.rows == Inserted(map[], 0, "u", 0.0)
    ensures t.slots == s.slots && 0 in t.st.rows && t.st.rows[0].status == FAILED_TRANSIENT
    ensures Valid(ONE_SLOT, s, es) && t == Run(ONE_SLOT, s, es) && Shape(ONE_SLOT, t)
  {
    var s1 := Wait(ONE_SLOT, s, 1801.0);
    var rest;
    rest, t := SweepNow(s1);
    RunFirst(ONE_SLOT, s, Tick(1801.0), s1, rest);
    es := [Tick(1801.0)] + rest;
  }

  lemma Wait(cfg: Config, s: State, dt: real) returns (t: State)
    requires Shape(cfg, s) && 0.0 <= dt
    ensures t == Protocol.Apply(cfg, s, Tick(dt)) && Shape(cfg, t)
    ensures t == s.(st := s.st.(now := s.st.now + dt))
  {
    ShapeKept(cfg, s, Tick(dt));
    t := Protocol.Apply(cfg, s, Tick(dt));
  }

  lemma SweepNow(s: State) returns (es: seq<Event>, t: State)
    requires Shape(ONE_SLOT, s) && s.sweeps == [[]] && s.st.now == 1801.0
    requires s.st.rows == Inserted(map[], 0, "u", 0.0)
    ensures t.slots == s.slots && 0 in t.st.rows && t.st.rows[0].status == FAILED_TRANSIENT
    ensures Valid(ONE_SLOT, s, es) && t == Run(ONE_SLOT, s, es) && Shape(ONE_SLOT, t)
  {
    var s1 := s.(sweeps := s.sweeps[0 := Snapshot(s.st.rows, [0])]);
    assert Enabled(s, ONE_SLOT, SweepSelect(0, [0]));
    ShapeKept(ONE_SLOT, s, SweepSelect(0, [0]));
    t := SweepWritten(s1, 0, Ok);
    ShapeKept(ONE_SLOT, s1, SweepWrite(0, Ok));
    RunFirst(ONE_SLOT, s1, SweepWrite(0, Ok), t, []);
    RunFirst(ONE_SLOT, s, SweepSelect(0, [0]), s1, [SweepWrite(0, Ok)] + []);
    es := [SweepSelect(0, [0])] + ([SweepWrite(0, Ok)] + []);
  }

  /** Terminal statuses are not final on every run: a sweep that overtakes a slow slot sets
      FAILED_TRANSIENT, and the slot's next call sets PROCESSING over it. */
  lemma TerminalStatusOverwritten() returns (es: seq<Event>, s: State, fs: seq<Event>, t: State)
    ensures 0 in s.st.rows && s.st.rows[0].status == FAILED_TRANSIENT
    ensures 0 in t.st.rows && t.st.rows[0].status == PROCESSING
    ensures Init(ONE_SLOT, BOOTED) && Valid(ONE_SLOT, BOOTED, es) && s == Run(ONE_SLOT, BOOTED, es)
    ensures Shape(ONE_SLOT, s) && Valid(ONE_SLOT, s, fs) && t == Run(ONE_SLOT, s, fs)
  {
    var e1, s1 := Accept();
    var e2, s2 := Take(s1);
    var e3, s3 := SweepMeanwhile(s2);
    RunAppend(ONE_SLOT, BOOTED, e1, e2);
    RunAppend(ONE_SLOT, BOOTED, e1 + e2, e3);
    es, s := e1 + e2 + e3, s3;
    fs, t := MarkAnyway(ONE_SLOT, s, 0, 0);
  }

  /** The mark is made whatever the row says by now. */
  lemma MarkAnyway(cfg: Config, s: State, i: nat, j: JobId) returns (fs: seq<Event>, t: State)
    requires Shape(cfg, s) && i < |s.slots| && s.slots[i].Busy? && s.slots[i].job == j && s.slots[i].pc.MarkProcessing?
    requires j in s.st.rows && s.st.rows[j].status == FAILED_TRANSIENT
    ensures j in t.st.rows && t.st.rows[j].status == PROCESSING
    ensures Valid(cfg, s, fs) && t == Run(cfg, s, fs)
  {
    var p := cfg.processOf[i];
    StepWritesOwnRow(Env(cfg.psv[p], cfg.post), s.st, s.buckets[p], j, s.slots[i].url, s.slots[i].pc, Ok);
    ShapeKept(cfg, s, SlotCall(i, Ok));
    t := SlotCalled(cfg, s, i, Ok);
    CallFirst(cfg, s, i, Ok, []);
    fs := [SlotCall(i, Ok)] + [];
  }

  lemma MarkNow(cfg: Config, s: State) returns (t: State)
    requires Shape(cfg, s) && s.slots == [Busy(0, "u", MarkProcessing(None))]
    ensures t == SlotCalled(cfg, s, 0, Ok) && Shape(cfg, t) && t.slots == [Busy(0, "u", Download(None))]
    ensures TallyOf(t.log, 0).blips == TallyOf(s.log, 0).blips
  {
    var p := cfg.processOf[0];
    FirstSteps(Env(cfg.psv[p], cfg.post), s.st, s.buckets[p], 0, "u");
    t := CallNow(cfg, s, Ok, MarkProcessing(None), SlotNext(cfg, s, 0, Ok));
  }

  lemma DownloadFailsNow(cfg: Config, s: State) returns (t: State)
    requires Shape(cfg, s) && s.slots == [Busy(0, "u", Download(None))]
    ensures t == SlotCalled(cfg, s, 0, Unavailable("")) && Shape(cfg, t) && t.slots == [Busy(0, "u", BumpCounter)]
    ensures TallyOf(t.log, 0).blips == TallyOf(s.log, 0).blips
  {
    var p := cfg.processOf[0];
    FirstSteps(Env(cfg.psv[p], cfg.post), s.st, s.buckets[p], 0, "u");
    t := CallNow(cfg, s, Unavailable(""), Download(None), SlotNext(cfg, s, 0, Unavailable("")));
  }

  /** The mark succeeds, and the image cannot be downloaded for now. */
  lemma DownloadFails(cfg: Config, s: State) returns (es: seq<Event>, t: State)
    requires Shape(cfg, s) && s.slots == [Busy(0, "u", MarkProcessing(None))]
    ensures t.slots == [Busy(0, "u", BumpCounter)] && TallyOf(t.log, 0).blips == TallyOf(s.log, 0).blips
    ensures Valid(cfg, s, es) && t == Run(cfg, s, es) && Shape(cfg, t)
  {
    var s1 := MarkNow(cfg, s);
    t := DownloadFailsNow(cfg, s1);
    CallFirst(cfg, s1, 0, Unavailable(""), []);
    CallFirst(cfg, s, 0, Ok, [SlotCall(0, Unavailable(""))] + []);
    es := [SlotCall(0, Ok)] + ([SlotCall(0, Unavailable(""))] + []);
  }

  /** The bound of message conservation is attained by a run of the service: one failed counter call,
      and the job is queued twice. */
  lemma BlipDuplicatesMessage() returns (es: seq<Event>, s: State)
    ensures SumBy(s.st.queue, IsFor(0)) == 2 && Load(s, 0) == 2 && TallyOf(s.log, 0).blips == 1
    ensures Init(ONE_SLOT, BOOTED) && Valid(ONE_SLOT, BOOTED, es) && s == Run(ONE_SLOT, BOOTED, es)
  {
    var e1, s1 := Accept();
    var e2, s2 := Take(s1);
    var e3, s3 := DownloadFails(ONE_SLOT, s2);
    var e4, s4 := BlipDuplicates(ONE_SLOT, s3, 0);
    RunAppend(ONE_SLOT, BOOTED, e1, e2);
    RunAppend(ONE_SLOT, BOOTED, e1 + e2, e3);
    RunAppend(ONE_SLOT, BOOTED, e1 + e2 + e3, e4);
    es := e1 + e2 + e3 + e4;
    s := Run(ONE_SLOT, BOOTED, es);
    MessageConservation(ONE_SLOT, BOOTED, es, 0);
  }
}
