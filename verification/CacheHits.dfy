/** The phash cache over runs: what was written is read back for a day. */
module CacheHits {
  import opened Common
  import opened Schemas
  import opened JobsTable
  import opened TokenBuckets
  import opened SlotMachine
  import opened Protocol
  import opened Messages
  import opened Exits

  /** The event writes the entry of `key`. */
  predicate Caches(cfg: Config, s: State, e: Event, key: CacheKey) {
    && e.SlotCall? && e.a.Ok?
    && e.slot < |s.slots| && e.slot < |cfg.processOf| && cfg.processOf[e.slot] < |cfg.psv|
    && s.slots[e.slot].Busy? && s.slots[e.slot].pc.WriteCache?
    && CacheKey(s.slots[e.slot].pc.phash, cfg.psv[cfg.processOf[e.slot]]) == key
  }

  /** No event of the run does. */
  ghost predicate Uncached(cfg: Config, s: State, es: seq<Event>, key: CacheKey)
    requires Shape(cfg, s) && Valid(cfg, s, es)
    decreases |es|
  {
    es != [] ==>
      && !Caches(cfg, s, es[0], key)
      && (ShapeKept(cfg, s, es[0]); Uncached(cfg, Apply(cfg, s, es[0]), es[1..], key))
  }

  /** No entry lives longer than a day. */
  predicate Dated(st: Stores, key: CacheKey) {
    key in st.cache ==> st.cache[key].expires <= st.now + 86400.0
  }

  ghost predicate EntryMoves(cfg: Config, s: State, e: Event, t: State, key: CacheKey) {
    && s.st.now <= t.st.now
    && (if Caches(cfg, s, e, key)
        then key in t.st.cache && t.st.cache[key] == CacheEntry(s.slots[e.slot].pc.raw, s.st.now + 86400.0)
        else (key in t.st.cache <==> key in s.st.cache) && (key in s.st.cache ==> t.st.cache[key] == s.st.cache[key]))
  }

  lemma CallMovesEntry(cfg: Config, s: State, i: nat, a: Answer, key: CacheKey)
    requires Shape(cfg, s) && i < |s.slots| && s.slots[i].Busy?
    ensures EntryMoves(cfg, s, SlotCall(i, a), SlotCalled(cfg, s, i, a), key)
  {
    var p := cfg.processOf[i];
    var Busy(job, url, pc) := s.slots[i];
    RedisExactly(Env(cfg.psv[p], cfg.post), s.st, s.buckets[p], job, url, pc, a);
    InstalledMovesEntry(cfg, s, i, SlotNext(cfg, s, i, a), a, key);
  }

  lemma InstalledMovesEntry(cfg: Config, s: State, i: nat, n: Next, a: Answer, key: CacheKey)
    requires Shape(cfg, s) && i < |s.slots| && s.slots[i].Busy? && n.st.now == s.st.now
    requires var pc := s.slots[i].pc;
      n.st.cache == if pc.WriteCache? && a.Ok?
        then s.st.cache[CacheKey(pc.phash, cfg.psv[cfg.processOf[i]]) := CacheEntry(pc.raw, s.st.now + 86400.0)]
        else s.st.cache
    ensures EntryMoves(cfg, s, SlotCall(i, a), Installed(cfg, s, i, n, a), key)
  {
    assert Installed(cfg, s, i, n, a).st == n.st;
  }

  lemma StepMovesEntry(cfg: Config, s: State, e: Event, key: CacheKey)
    requires Shape(cfg, s) && Enabled(s, cfg, e)
    ensures EntryMoves(cfg, s, e, Apply(cfg, s, e), key)
  {
    if e.SlotCall? {
      CallMovesEntry(cfg, s, e.slot, e.a, key);
    } else if IsUpkeep(e) {
      UpkeepFrame(s, cfg, e);
    }
  }

  /** An entry is replaced by later ones only, and not at all unless it is written again. */
  lemma {:induction false} EntryKept(cfg: Config, s: State, es: seq<Event>, key: CacheKey)
    requires Shape(cfg, s) && Valid(cfg, s, es) && Dated(s.st, key) && key in s.st.cache
    ensures var t := Run(cfg, s, es);
      && s.st.now <= t.st.now && key in t.st.cache && t.st.cache[key].expires >= s.st.cache[key].expires
      && (Uncached(cfg, s, es, key) ==> t.st.cache[key] == s.st.cache[key])
    decreases |es|
  {
    if es == [] {
    } else {
      StepMovesEntry(cfg, s, es[0], key);
      ShapeKept(cfg, s, es[0]);
      EntryKept(cfg, Apply(cfg, s, es[0]), es[1..], key);
    }
  }

  lemma WrittenNow(cfg: Config, s: State, i: nat)
    requires Shape(cfg, s) && i < |s.slots| && s.slots[i].Busy? && s.slots[i].pc.WriteCache?
    ensures var (t, pc) := (SlotCalled(cfg, s, i, Ok), s.slots[i].pc);
      var key := CacheKey(pc.phash, cfg.psv[cfg.processOf[i]]);
      t.st.now == s.st.now && key in t.st.cache && t.st.cache[key] == CacheEntry(pc.raw, s.st.now + 86400.0)
  {
    var p := cfg.processOf[i];
    var Busy(job, url, pc) := s.slots[i];
    RedisExactly(Env(cfg.psv[p], cfg.post), s.st, s.buckets[p], job, url, pc, Ok);
  }

  /** After a successful cache write every read under its phash and prompt version hits for a day,
      whatever happens in between; and unless they are written again, it reads what was written until
      then and nothing afterwards. */
  lemma HitsForADay(cfg: Config, s: State, i: nat, es: seq<Event>, t: State, next: State)
    requires Shape(cfg, s) && i < |s.slots| && s.slots[i].Busy? && s.slots[i].pc.WriteCache?
    requires next == SlotCalled(cfg, s, i, Ok) && Shape(cfg, next) && Valid(cfg, next, es) && t == Run(cfg, next, es)
    ensures var pc := s.slots[i].pc; var key := CacheKey(pc.phash, cfg.psv[cfg.processOf[i]]);
      && (t.st.now < s.st.now + 86400.0 ==> CacheLookup(t.st, key).Some?)
      && (Uncached(cfg, next, es, key) ==>
            CacheLookup(t.st, key) == if t.st.now < s.st.now + 86400.0 then Some(pc.raw) else None)
  {
    var key := CacheKey(s.slots[i].pc.phash, cfg.psv[cfg.processOf[i]]);
    WrittenNow(cfg, s, i);
    EntryKept(cfg, next, es, key);
  }
}
