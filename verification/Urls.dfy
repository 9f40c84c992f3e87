/** A job is always worked on under the URL it was submitted with. */
module Urls {
  import opened Common
  import opened Schemas
  import opened JobsTable
  import opened TokenBuckets
  import opened SlotMachine
  import opened Protocol
  import opened Messages
  import opened Terminal
  import opened Exits

  /** Row, submit, messages and slots of `j` have the URL `u`. */
  ghost predicate Has(s: State, j: JobId, u: string) {
    && (j in s.st.rows ==> s.st.rows[j].imageUrl == u)
    && (j in s.submits ==> s.submits[j].url == u)
    && (forall i :: 0 <= i < |s.st.queue| && s.st.queue[i].job == j ==> s.st.queue[i].url == u)
    && (forall i :: 0 <= i < |s.slots| && s.slots[i].Busy? && s.slots[i].job == j ==> s.slots[i].url == u)
  }

  /** Nothing stands for `j`. */
  ghost predicate Traceless(s: State, j: JobId) {
    && j !in s.log.used && j !in s.st.rows && j !in s.submits
    && (forall i :: 0 <= i < |s.st.queue| ==> s.st.queue[i].job != j)
    && (forall i :: 0 <= i < |s.slots| && s.slots[i].Busy? ==> s.slots[i].job != j)
  }

  lemma CallKeepsUrl(cfg: Config, s: State, i: nat, a: Answer, j: JobId)
    requires Shape(cfg, s) && i < |s.slots| && s.slots[i].Busy? && Coherent(s, s.slots[i].job)
    ensures forall u :: Has(s, j, u) ==> Has(SlotCalled(cfg, s, i, a), j, u)
    ensures Traceless(s, j) ==> Traceless(SlotCalled(cfg, s, i, a), j)
  {
    var p := cfg.processOf[i];
    var Busy(job, url, pc) := s.slots[i];
    var env := Env(cfg.psv[p], cfg.post);
    RowsExactly(env, s.st, s.buckets[p], job, url, pc, a);
    RedisExactly(env, s.st, s.buckets[p], job, url, pc, a);
    InstalledKeepsUrl(cfg, s, i, SlotNext(cfg, s, i, a), a, j);
  }

  lemma InstalledKeepsUrl(cfg: Config, s: State, i: nat, n: Next, a: Answer, j: JobId)
    requires Shape(cfg, s) && i < |s.slots| && s.slots[i].Busy?
    requires n.st.rows.Keys == s.st.rows.Keys
    requires forall k :: k in n.st.rows ==> n.st.rows[k].imageUrl == s.st.rows[k].imageUrl
    requires n.st.queue == s.st.queue || n.st.queue == [Message(s.slots[i].job, s.slots[i].url)] + s.st.queue
    ensures forall u :: Has(s, j, u) ==> Has(Installed(cfg, s, i, n, a), j, u)
    ensures Traceless(s, j) ==> Traceless(Installed(cfg, s, i, n, a), j)
  {
    assert n.st.queue != s.st.queue ==> n.st.queue[1..] == s.st.queue;
  }

  lemma SubmitKeepsUrl(cfg: Config, s: State, e: Event, j: JobId)
    requires IsSubmit(e) && Enabled(s, cfg, e)
    ensures j in s.log.used ==> forall u :: Has(s, j, u) ==> Has(Submitted(s, cfg, e), j, u)
    ensures Traceless(s, j) ==>
      if e.SubmitCheck? && e.job == j then Has(Submitted(s, cfg, e), j, e.url) else Traceless(Submitted(s, cfg, e), j)
  {
  }

  lemma PoolKeepsUrl(cfg: Config, s: State, e: Event, j: JobId)
    requires IsPool(e) && Enabled(s, cfg, e)
    ensures forall u :: Has(s, j, u) ==> Has(Pooled(s, cfg, e), j, u)
    ensures Traceless(s, j) ==> Traceless(Pooled(s, cfg, e), j)
  {
  }

  lemma UpkeepKeepsUrl(cfg: Config, s: State, e: Event, j: JobId)
    requires IsUpkeep(e) && Enabled(s, cfg, e)
    ensures forall u :: Has(s, j, u) ==> Has(Upkept(s, cfg, e), j, u)
    ensures Traceless(s, j) ==> Traceless(Upkept(s, cfg, e), j)
  {
    UpkeepFrame(s, cfg, e);
  }

  /** The URL of a job is settled when it is submitted. */
  ghost predicate UrlSettled(s: State, j: JobId) {
    if j in s.log.used then exists u :: Has(s, j, u) else Traceless(s, j)
  }

  lemma StepKeepsUrl(cfg: Config, s: State, e: Event, j: JobId)
    requires Shape(cfg, s) && Enabled(s, cfg, e) && UrlSettled(s, j)
    requires e.SlotCall? ==> Coherent(s, s.slots[e.slot].job)
    ensures UrlSettled(Apply(cfg, s, e), j)
    ensures forall u :: j in s.log.used && Has(s, j, u) ==> Has(Apply(cfg, s, e), j, u)
    ensures j in s.log.used ==> j in Apply(cfg, s, e).log.used
  {
    if e.SlotCall? {
      CallKeepsUrl(cfg, s, e.slot, e.a, j);
    } else if IsSubmit(e) {
      SubmitKeepsUrl(cfg, s, e, j);
    } else if IsPool(e) {
      PoolKeepsUrl(cfg, s, e, j);
    } else {
      UpkeepKeepsUrl(cfg, s, e, j);
    }
  }

  lemma {:induction false} RunKeepsUrl(cfg: Config, s: State, es: seq<Event>, j: JobId)
    requires Shape(cfg, s) && Valid(cfg, s, es) && UrlSettled(s, j) && forall j :: Coherent(s, j)
    ensures UrlSettled(Run(cfg, s, es), j)
    ensures forall u :: j in s.log.used && Has(s, j, u) ==> Has(Run(cfg, s, es), j, u)
    decreases |es|
  {
    if es == [] {
    } else {
      ShapeKept(cfg, s, es[0]);
      StepKeepsUrl(cfg, s, es[0], j);
      CoherentStep(cfg, s, es[0]);
      RunKeepsUrl(cfg, Apply(cfg, s, es[0]), es[1..], j);
    }
  }

  /** Whatever happens, every message of a job, every slot that has it, and its row have the URL that
      the job was submitted with. */
  lemma UrlKept(cfg: Config, s0: State, es: seq<Event>, s: State, job: JobId, url: string, a: Answer,
                next: State, fs: seq<Event>)
    requires Init(cfg, s0) && Valid(cfg, s0, es) && s == Run(cfg, s0, es)
    requires Shape(cfg, s) && Enabled(s, cfg, SubmitCheck(job, url, a))
    requires next == Apply(cfg, s, SubmitCheck(job, url, a)) && Shape(cfg, next) && Valid(cfg, next, fs)
    ensures Has(Run(cfg, next, fs), job, url)
  {
    CoherentRun(cfg, s0, es);
    RunKeepsUrl(cfg, s0, es, job);
    SubmitKeepsUrl(cfg, s, SubmitCheck(job, url, a), job);
    CoherentStep(cfg, s, SubmitCheck(job, url, a));
    RunKeepsUrl(cfg, next, fs, job);
  }
}
