/** The whole service as a step system: API submits, worker slots, sweepers, purge and
    rate refresh over one jobs table and one Redis.

    One event is one Postgres, Redis or pipeline call, and events of different actors
    interleave freely. Any call may fail; a failed call is taken as not applied. Slots,
    submits and sweepers may stop for good between any two calls. */
module Protocol {
  import opened Common
  import opened Schemas
  import opened JobsTable
  import opened TokenBuckets
  import opened Extractor
  import opened SlotMachine

  /** A worker task: waiting for a message, gone with its process, or inside a lifecycle. */
  datatype Slot = Idle | Dead | Busy(job: JobId, url: string, pc: Pc)

  /** A POST past the backpressure check, before and after its INSERT. */
  datatype Submit = Admitted(url: string) | Stored(url: string)

  /** One row of a sweeper's snapshot that is still to be written. */
  datatype Sweeping = Sweeping(job: JobId, status: JobStatus)

  /** Fixed per deployment: the postprocessor, the prompt version of every process, the
      process of every slot, and how many submits the API serves at once. */
  datatype Config = Config(
    post: InvoiceResult -> Option<InvoiceResult>,
    psv: seq<string>,
    processOf: seq<nat>,
    maxSubmits: nat)

  /** What happened to one job so far. `counted` and `uncounted` are decisions to yield,
      with and without a requeue count; `lives` counts how often its counter started. */
  datatype Tally = Tally(pops: nat, counted: nat, uncounted: nat, blips: nat, lives: nat)

  const NOTHING := Tally(0, 0, 0, 0, 0)

  datatype GeminiTally = GeminiTally(grants: nat, calls: nat)

  datatype RawResult = RawResult(psv: string, phash: string, raw: InvoiceResult)

  /** History, read by no step. `stored` has, for every job, under which phash and prompt version
      the slot worked that last stored its result. */
  datatype Log = Log(
    used: set<JobId>,
    tally: map<JobId, Tally>,
    blips: nat,
    failOpens: nat,
    extracted: set<RawResult>,
    hashed: set<(JobId, string)>,
    stored: map<JobId, CacheKey>,
    gemini: seq<GeminiTally>)

  datatype State = State(
    st: Stores,
    slots: seq<Slot>,
    submits: map<JobId, Submit>,
    sweeps: seq<seq<Sweeping>>,
    buckets: seq<Bucket>,
    log: Log)

  datatype Event =
    | Tick(dt: real)
    | SubmitCheck(job: JobId, url: string, a: Answer)
    | SubmitInsert(job: JobId, a: Answer)
    | SubmitPush(job: JobId, a: Answer)
    | SubmitDrop(job: JobId)
    | Pop(slot: nat)
    | SlotCall(slot: nat, a: Answer)
    | Crash(slot: nat, calls: nat)                   // calls: to Gemini, in the extraction it cuts short
    | Revive(slot: nat)
    | SweepSelect(sweeper: nat, order: seq<JobId>)
    | SweepWrite(sweeper: nat, a: Answer)
    | SweepAbort(sweeper: nat)
    | Purge
    | Reconfigure(process: nat, rate: real, burst: int)

  ghost predicate Shape(cfg: Config, s: State) {
    && |s.slots| == |cfg.processOf|
    && |s.buckets| == |s.log.gemini| == |cfg.psv|
    && (forall i :: 0 <= i < |cfg.processOf| ==> cfg.processOf[i] < |cfg.psv|)
    && (forall i :: 0 <= i < |s.slots| && s.slots[i].Busy? ==> !s.slots[i].pc.Done?)
  }

  ghost predicate Enabled(s: State, cfg: Config, e: Event) {
    match e
    case Tick(dt) => 0.0 <= dt
    case SubmitCheck(job, _, _) => job !in s.log.used && |s.submits| < cfg.maxSubmits
    case SubmitInsert(job, _) => job in s.submits && s.submits[job].Admitted?
    case SubmitPush(job, _) => job in s.submits && s.submits[job].Stored?
    case SubmitDrop(job) => job in s.submits
    case Pop(i) => i < |s.slots| && s.slots[i].Idle? && s.st.queue != []
    case SlotCall(i, _) => i < |s.slots| && s.slots[i].Busy?
    case Crash(i, calls) =>
      && i < |s.slots| && i < |cfg.processOf| && cfg.processOf[i] < |s.log.gemini|
      && calls <= if s.slots[i].Busy? && s.slots[i].pc.Extract? then RETRIES + 1 else 0
    case Revive(i) => i < |s.slots| && s.slots[i].Dead?
    case SweepSelect(k, order) =>
      && k < |s.sweeps| && s.sweeps[k] == []
      && (forall j :: j in order <==> j in s.st.rows && Stale(s.st.rows[j], s.st.now))
    case SweepWrite(k, _) => k < |s.sweeps| && s.sweeps[k] != []
    case SweepAbort(k) => k < |s.sweeps|
    case Purge => true
    case Reconfigure(p, rate, burst) => p < |s.buckets| && 0.0 <= rate && 0 <= burst
  }

  // ---- The events one by one ----

  function Without<K, V>(m: map<K, V>, k: K): map<K, V> {
    map x | x in m && x != k :: m[x]
  }

  /** check_backpressure: a failed LLEN admits, a depth at the limit rejects. */
  function Checked(s: State, job: JobId, url: string, a: Answer): State {
    var log := s.log.(used := s.log.used + {job});
    if !a.Ok? then
      s.(submits := s.submits[job := Admitted(url)], log := log.(failOpens := log.failOpens + 1))
    else if |s.st.queue| >= BACKPRESSURE_QUEUE_REJECT then s.(log := log)
    else s.(submits := s.submits[job := Admitted(url)], log := log)
  }

  function InsertDone(s: State, job: JobId, a: Answer): State
    requires job in s.submits
  {
    if a.Ok? && job !in s.st.rows then
      s.(st := s.st.(rows := Inserted(s.st.rows, job, s.submits[job].url, s.st.now)),
         submits := s.submits[job := Stored(s.submits[job].url)])
    else s.(submits := Without(s.submits, job))
  }

  function PushDone(s: State, job: JobId, a: Answer): State
    requires job in s.submits
  {
    var rest := Without(s.submits, job);
    if a.Ok? then s.(st := Pushed(s.st, job, s.submits[job].url), submits := rest)
    else s.(submits := rest)
  }

  function TallyOf(log: Log, job: JobId): Tally {
    if job in log.tally then log.tally[job] else NOTHING
  }

  function Popped(s: State, i: nat): State
    requires i < |s.slots| && s.st.queue != []
  {
    var last := |s.st.queue| - 1;
    var m := s.st.queue[last];
    var t := TallyOf(s.log, m.job);
    s.(st := s.st.(queue := s.st.queue[..last]),
       slots := s.slots[i := Busy(m.job, m.url, ReadStatus)],
       log := s.log.(tally := s.log.tally[m.job := t.(pops := t.pops + 1)]))
  }

  function SlotAfter(job: JobId, url: string, pc: Pc): Slot {
    if pc.Done? then Idle else Busy(job, url, pc)
  }

  predicate IsBump(pc: Pc) {
    pc.BumpCounter? || pc.ExpireCounter?
  }

  predicate IsBlip(before: Pc, after: Pc) {
    IsBump(before) && after == BLIP
  }

  predicate IsCountedYield(before: Pc, after: Pc) {
    IsBump(before) && after == YieldTouch(1)
  }

  predicate IsUncountedYield(before: Pc, after: Pc) {
    !IsBump(before) && !before.YieldPush? && after == YieldTouch(1)
  }

  function One(b: bool): nat {
    if b then 1 else 0
  }

  /** The tally of `job` after a call from `before` to `after`. */
  function Tallied(log: Log, job: JobId, before: Pc, after: Pc): Tally {
    var t := TallyOf(log, job);
    t.(counted := t.counted + One(IsCountedYield(before, after)),
       uncounted := t.uncounted + One(IsUncountedYield(before, after)),
       blips := t.blips + One(IsBlip(before, after)),
       lives := t.lives + One(before.BumpCounter? && after.ExpireCounter?))
  }

  function GeminiCalls(before: Pc, a: Answer): nat {
    if before.Extract? && a.Gemini? then Retry(a.replies, RETRIES, 0).1 else 0
  }

  function GeminiTallied(g: GeminiTally, before: Pc, after: Pc, a: Answer): GeminiTally {
    GeminiTally(g.grants + One(before.AcquireToken? && after.Extract?), g.calls + GeminiCalls(before, a))
  }

  function CutShort(log: Log, process: nat, calls: nat): Log
    requires process < |log.gemini|
  {
    var g := log.gemini[process];
    log.(gemini := log.gemini[process := g.(calls := g.calls + calls)])
  }

  function Logged(log: Log, psv: string, process: nat, job: JobId, before: Pc, after: Pc, a: Answer): Log
    requires process < |log.gemini|
  {
    log.(
      tally := log.tally[job := Tallied(log, job, before, after)],
      blips := log.blips + One(IsBlip(before, after)),
      extracted := log.extracted
        + (if before.Extract? && after.WriteCache? then {RawResult(psv, before.phash, after.raw)} else {}),
      hashed := log.hashed + (if before.Preprocess? && a.Hashed? then {(job, a.phash)} else {}),
      stored := if before.Persist? && a.Ok? then log.stored[job := CacheKey(before.phash, psv)] else log.stored,
      gemini := log.gemini[process := GeminiTallied(log.gemini[process], before, after, a)])
  }

  function SlotNext(cfg: Config, s: State, i: nat, a: Answer): Next
    requires Shape(cfg, s) && i < |s.slots| && s.slots[i].Busy?
  {
    var p := cfg.processOf[i];
    Step(Env(cfg.psv[p], cfg.post), s.st, s.buckets[p], s.slots[i].job, s.slots[i].url, s.slots[i].pc, a)
  }

  /** The state after a call of slot `i` whose effect is `n`. */
  function Installed(cfg: Config, s: State, i: nat, n: Next, a: Answer): State
    requires Shape(cfg, s) && i < |s.slots| && s.slots[i].Busy?
  {
    var p := cfg.processOf[i];
    var Busy(job, url, pc) := s.slots[i];
    s.(st := n.st,
       slots := s.slots[i := SlotAfter(job, url, n.pc)],
       buckets := s.buckets[p := n.bucket],
       log := Logged(s.log, cfg.psv[p], p, job, pc, n.pc, a))
  }

  function SlotCalled(cfg: Config, s: State, i: nat, a: Answer): State
    requires Shape(cfg, s) && i < |s.slots| && s.slots[i].Busy?
  {
    Installed(cfg, s, i, SlotNext(cfg, s, i, a), a)
  }

  function StatusName(status: JobStatus): string {
    match status
    case PENDING => "PENDING"
    case PROCESSING => "PROCESSING"
    case SUCCEEDED => "SUCCEEDED"
    case FAILED_PERMANENT => "FAILED_PERMANENT"
    case FAILED_TRANSIENT => "FAILED_TRANSIENT"
  }

  function SweepFailure(status: JobStatus): Changes {
    Failure("stale_timeout", "sweeper: status=" + StatusName(status) + " age exceeded threshold")
  }

  function Snapshot(rows: Rows, order: seq<JobId>): (r: seq<Sweeping>)
    requires forall j :: j in order ==> j in rows
    ensures |r| == |order|
    ensures forall i :: 0 <= i < |r| ==> r[i] == Sweeping(order[i], rows[order[i]].status)
  {
    if order == [] then [] else [Sweeping(order[0], rows[order[0]].status)] + Snapshot(rows, order[1..])
  }

  function SweepWritten(s: State, k: nat, a: Answer): State
    requires k < |s.sweeps| && s.sweeps[k] != []
  {
    var Sweeping(job, status) := s.sweeps[k][0];
    var rest := s.(sweeps := s.sweeps[k := s.sweeps[k][1..]]);
    if a.Ok? then rest.(st := WithStatus(s.st, job, FAILED_TRANSIENT, SweepFailure(status))) else rest
  }

  predicate IsSubmit(e: Event) {
    e.SubmitCheck? || e.SubmitInsert? || e.SubmitPush? || e.SubmitDrop?
  }

  predicate IsPool(e: Event) {
    e.Pop? || e.Crash? || e.Revive?
  }

  predicate IsUpkeep(e: Event) {
    !e.SlotCall? && !IsSubmit(e) && !IsPool(e)
  }

  function Submitted(s: State, cfg: Config, e: Event): State
    requires IsSubmit(e) && Enabled(s, cfg, e)
  {
    match e
    case SubmitCheck(job, url, a) => Checked(s, job, url, a)
    case SubmitInsert(job, a) => InsertDone(s, job, a)
    case SubmitPush(job, a) => PushDone(s, job, a)
    case SubmitDrop(job) => s.(submits := Without(s.submits, job))
  }

  function Pooled(s: State, cfg: Config, e: Event): State
    requires IsPool(e) && Enabled(s, cfg, e)
  {
    match e
    case Pop(i) => Popped(s, i)
    case Crash(i, calls) => s.(slots := s.slots[i := Dead], log := CutShort(s.log, cfg.processOf[i], calls))
    case Revive(i) => s.(slots := s.slots[i := Idle])
  }

  function Upkept(s: State, cfg: Config, e: Event): State
    requires IsUpkeep(e) && Enabled(s, cfg, e)
  {
    match e
    case Tick(dt) => s.(st := s.st.(now := s.st.now + dt))
    case SweepSelect(k, order) => s.(sweeps := s.sweeps[k := Snapshot(s.st.rows, order)])
    case SweepWrite(k, a) => SweepWritten(s, k, a)
    case SweepAbort(k) => s.(sweeps := s.sweeps[k := []])
    case Purge => s.(st := s.st.(rows := Purged(s.st.rows, s.st.now)))
    case Reconfigure(p, rate, burst) => s.(buckets := s.buckets[p := Reconfigured(s.buckets[p], rate, burst)])
  }

  function Apply(cfg: Config, s: State, e: Event): State
    requires Shape(cfg, s) && Enabled(s, cfg, e)
  {
    if e.SlotCall? then SlotCalled(cfg, s, e.slot, e.a)
    else if IsSubmit(e) then Submitted(s, cfg, e)
    else if IsPool(e) then Pooled(s, cfg, e)
    else Upkept(s, cfg, e)
  }

  /** Sweeps, purge, refresh and time leave messages, slots, submits and history alone. */
  lemma UpkeepFrame(s: State, cfg: Config, e: Event)
    requires IsUpkeep(e) && Enabled(s, cfg, e)
    ensures var t := Upkept(s, cfg, e);
      && t.st.queue == s.st.queue && t.st.counters == s.st.counters && t.st.cache == s.st.cache
      && t.slots == s.slots && t.submits == s.submits && t.log == s.log
  {
  }

  lemma ShapeKept(cfg: Config, s: State, e: Event)
    requires Shape(cfg, s) && Enabled(s, cfg, e)
    ensures Shape(cfg, Apply(cfg, s, e))
  {
    if e.SlotCall? {
      ShapeInstalled(cfg, s, e.slot, SlotNext(cfg, s, e.slot, e.a), e.a);
    } else if IsPool(e) {
      ShapePooled(cfg, s, e);
    } else if IsUpkeep(e) {
      UpkeepFrame(s, cfg, e);
    }
  }

  lemma ShapeInstalled(cfg: Config, s: State, i: nat, n: Next, a: Answer)
    requires Shape(cfg, s) && i < |s.slots| && s.slots[i].Busy?
    ensures Shape(cfg, Installed(cfg, s, i, n, a))
  {
  }

  lemma ShapePooled(cfg: Config, s: State, e: Event)
    requires Shape(cfg, s) && IsPool(e) && Enabled(s, cfg, e)
    ensures Shape(cfg, Pooled(s, cfg, e))
  {
  }

  // ---- Runs ----

  ghost predicate Valid(cfg: Config, s: State, es: seq<Event>)
    requires Shape(cfg, s)
    decreases |es|
  {
    es == [] ||
    (Enabled(s, cfg, es[0]) && (ShapeKept(cfg, s, es[0]); Valid(cfg, Apply(cfg, s, es[0]), es[1..])))
  }

  ghost function Run(cfg: Config, s: State, es: seq<Event>): State
    requires Shape(cfg, s) && Valid(cfg, s, es)
    decreases |es|
  {
    if es == [] then s
    else ShapeKept(cfg, s, es[0]); Run(cfg, Apply(cfg, s, es[0]), es[1..])
  }

  ghost predicate Init(cfg: Config, s: State) {
    && Shape(cfg, s)
    && s.st == Stores(map[], [], map[], map[], 0.0)
    && (forall i :: 0 <= i < |s.slots| ==> s.slots[i].Idle?)
    && s.submits == map[]
    && (forall k :: 0 <= k < |s.sweeps| ==> s.sweeps[k] == [])
    && (forall p :: 0 <= p < |s.buckets| ==>
          && s.buckets[p].Valid() && s.buckets[p].last == 0.0
          && s.buckets[p].tokens == s.buckets[p].capacity as real)
    && s.log.used == {} && s.log.tally == map[] && s.log.blips == 0 && s.log.failOpens == 0
    && s.log.extracted == {} && s.log.hashed == {} && s.log.stored == map[]
    && (forall p :: 0 <= p < |s.log.gemini| ==> s.log.gemini[p] == GeminiTally(0, 0))
  }

  lemma ShapeAfter(cfg: Config, s: State, es: seq<Event>)
    requires Shape(cfg, s) && Valid(cfg, s, es)
    ensures Shape(cfg, Run(cfg, s, es))
    decreases |es|
  {
    if es == [] {
    } else {
      ShapeKept(cfg, s, es[0]);
      ShapeAfter(cfg, Apply(cfg, s, es[0]), es[1..]);
    }
  }

  lemma {:induction false} RunAppend(cfg: Config, s: State, es: seq<Event>, fs: seq<Event>)
    requires Shape(cfg, s) && Valid(cfg, s, es)
    requires Shape(cfg, Run(cfg, s, es)) && Valid(cfg, Run(cfg, s, es), fs)
    ensures Valid(cfg, s, es + fs) && Run(cfg, s, es + fs) == Run(cfg, Run(cfg, s, es), fs)
    decreases |es|
  {
    if es == [] {
      assert es + fs == fs;
    } else {
      ShapeKept(cfg, s, es[0]);
      assert (es + fs)[0] == es[0] && (es + fs)[1..] == es[1..] + fs;
      RunAppend(cfg, Apply(cfg, s, es[0]), es[1..], fs);
    }
  }

  /** One more event in front of a run. */
  lemma RunFirst(cfg: Config, s: State, e: Event, next: State, es: seq<Event>)
    requires Shape(cfg, s) && Enabled(s, cfg, e) && next == Apply(cfg, s, e)
    requires Shape(cfg, next) && Valid(cfg, next, es)
    ensures Valid(cfg, s, [e] + es) && Run(cfg, s, [e] + es) == Run(cfg, next, es)
  {
    assert ([e] + es)[1..] == es;
  }

  /** A run that begins with a call of slot `i`. */
  lemma CallFirst(cfg: Config, s: State, i: nat, a: Answer, es: seq<Event>)
    requires Shape(cfg, s) && i < |s.slots| && s.slots[i].Busy?
    requires Shape(cfg, SlotCalled(cfg, s, i, a)) && Valid(cfg, SlotCalled(cfg, s, i, a), es)
    ensures Valid(cfg, s, [SlotCall(i, a)] + es)
    ensures Run(cfg, s, [SlotCall(i, a)] + es) == Run(cfg, SlotCalled(cfg, s, i, a), es)
  {
    assert Apply(cfg, s, SlotCall(i, a)) == SlotCalled(cfg, s, i, a);
    RunFirst(cfg, s, SlotCall(i, a), SlotCalled(cfg, s, i, a), es);
  }
}
