/** What the events of submits and sweepers do, next to the contracts of the calls they stand for. */
module Events {
  import opened Common
  import opened Schemas
  import opened JobsTable
  import opened TokenBuckets
  import opened SlotMachine
  import opened Protocol
  import opened Terminal
  import opened Windows
  import S = Sweeper

  /** A submit is admitted unless it sees 500 messages or more, stores its row, and queues its message
      behind all others. */
  lemma SubmitExactly(cfg: Config, s: State, e: Event)
    requires IsSubmit(e) && Enabled(s, cfg, e)
    ensures var t := Submitted(s, cfg, e);
      match e
      case SubmitCheck(j, url, a) =>
        t.st == s.st && j in t.log.used
        && t.submits == if a.Ok? && |s.st.queue| >= 500 then s.submits else s.submits[j := Admitted(url)]
      case SubmitInsert(j, a) =>
        if a.Ok? && j !in s.st.rows then
          && t.submits == s.submits[j := Stored(s.submits[j].url)] && t.st.queue == s.st.queue
          && t.st.rows == s.st.rows[j :=
               JobRecord(PENDING, None, s.submits[j].url, None, None, None, s.st.now, s.st.now)]
        else t.st == s.st && j !in t.submits
      case SubmitPush(j, a) =>
        && t.st.rows == s.st.rows && j !in t.submits
        && t.st.queue == if a.Ok? then [Message(j, s.submits[j].url)] + s.st.queue else s.st.queue
      case SubmitDrop(j) => t.st == s.st && j !in t.submits
    ensures forall j :: j in s.submits && j != e.job ==>
      j in Submitted(s, cfg, e).submits && Submitted(s, cfg, e).submits[j] == s.submits[j]
    ensures Submitted(s, cfg, e).slots == s.slots && Submitted(s, cfg, e).sweeps == s.sweeps
  {
  }

  /** A sweeper's snapshot has every overdue row with its status; each successful write fails the next
      of them, as long as it has a row, and each failed one leaves it as it is. */
  lemma SweepExactly(cfg: Config, s: State, e: Event)
    requires (e.SweepSelect? || e.SweepWrite?) && Enabled(s, cfg, e)
    ensures e.SweepSelect? ==> var t := Upkept(s, cfg, e);
      && t.st == s.st && |t.sweeps[e.sweeper]| == |e.order|
      && (forall j :: j in e.order <==> j in s.st.rows && Overdue(s.st.rows[j], s.st.now))
      && (forall n :: 0 <= n < |e.order| ==>
            t.sweeps[e.sweeper][n] == Sweeping(e.order[n], s.st.rows[e.order[n]].status))
    ensures e.SweepWrite? ==> var (t, k) := (Upkept(s, cfg, e), e.sweeper); var Sweeping(job, seen) := s.sweeps[k][0];
      && t.sweeps == s.sweeps[k := s.sweeps[k][1..]] && t.st.rows.Keys == s.st.rows.Keys
      && (forall j :: j in s.st.rows && j != job ==> t.st.rows[j] == s.st.rows[j])
      && (job in s.st.rows ==>
            if e.a.Ok? then S.FailedBySweep(s.st.rows[job], t.st.rows[job], seen, s.st.now)
            else t.st.rows[job] == s.st.rows[job])
  {
    if e.SweepSelect? {
      forall j | j in s.st.rows ensures Stale(s.st.rows[j], s.st.now) <==> Overdue(s.st.rows[j], s.st.now) {
        StaleIsOverdue(s.st.rows[j], s.st.now);
      }
    } else if s.sweeps[e.sweeper][0].job in s.st.rows {
      S.SweepWrites(s.st.rows[s.sweeps[e.sweeper][0].job], s.sweeps[e.sweeper][0].status, s.st.now);
    }
  }
}
