/** The whitelist index of src/pipeline/whitelist_index.py: it answers as a scan of the list would. */
module Whitelist {
  import opened Common

  /** Normalisation and lower-casing of Unicode text, and the library's similarity, 0 to 100. */
  datatype Matcher = Matcher(normalize: string -> string, lower: string -> string, score: (string, string) -> real)

  ghost predicate Lawful(m: Matcher) {
    && (forall x :: m.normalize(m.normalize(x)) == m.normalize(x))
    && m.lower("") == ""
    && (forall x, y :: m.score(x, y) <= 100.0)
    && (forall x, y :: m.score(x, y) == 100.0 <==> x == y)
  }

  datatype Kind = STORE | PRODUCT

  function Primary(kind: Kind): real {
    if kind == STORE then 80.0 else 70.0
  }

  function Fallback(kind: Kind): Option<real> {
    if kind == STORE then Some(60.0) else None
  }

  type Key = (string, int)

  function KeyOf(lower: string): Key {
    (if |lower| <= 3 then lower else lower[..3], |lower| / 4)
  }

  type Entry = (string, string)

  datatype Index = Index(buckets: map<Key, seq<Entry>>, allLower: seq<string>, canonicalOf: map<string, string>)

  // ---- The list, position by position ----

  predicate Has(m: Matcher, name: string, key: Option<Key>) {
    m.lower(name) != "" && (key.None? || KeyOf(m.lower(name)) == key.value)
  }

  predicate Increasing(ps: seq<int>, n: nat) {
    && (forall a :: 0 <= a < |ps| ==> 0 <= ps[a] < n)
    && (forall a, b :: 0 <= a < b < |ps| ==> ps[a] < ps[b])
  }

  /** Positions, below `n`, of the names with this key, or of all names if there is none. */
  function Positions(m: Matcher, names: seq<string>, key: Option<Key>, n: nat): (ps: seq<int>)
    requires n <= |names|
    ensures Increasing(ps, n)
    ensures forall p :: p in ps <==> 0 <= p < n && Has(m, names[p], key)
  {
    if n == 0 then []
    else if Has(m, names[n - 1], key) then Positions(m, names, key, n - 1) + [n - 1]
    else Positions(m, names, key, n - 1)
  }

  function LowersAt(m: Matcher, names: seq<string>, ps: seq<int>): (r: seq<string>)
    requires forall a :: 0 <= a < |ps| ==> 0 <= ps[a] < |names|
    ensures |r| == |ps| && forall a :: 0 <= a < |r| ==> r[a] == m.lower(names[ps[a]])
  {
    seq(|ps|, a requires 0 <= a < |ps| => m.lower(names[ps[a]]))
  }

  function EntriesAt(m: Matcher, names: seq<string>, ps: seq<int>): (r: seq<Entry>)
    requires forall a :: 0 <= a < |ps| ==> 0 <= ps[a] < |names|
    ensures |r| == |ps| && forall a :: 0 <= a < |r| ==> r[a] == (m.lower(names[ps[a]]), names[ps[a]])
  {
    seq(|ps|, a requires 0 <= a < |ps| => (m.lower(names[ps[a]]), names[ps[a]]))
  }

  /** The last position below `n` with this lower form, or -1. */
  function Last(m: Matcher, names: seq<string>, lower: string, n: nat): (p: int)
    requires n <= |names|
    ensures -1 <= p < n
    ensures p != -1 ==> m.lower(names[p]) == lower
    ensures forall k :: p < k < n ==> m.lower(names[k]) != lower
  {
    if n == 0 then -1 else if m.lower(names[n - 1]) == lower then n - 1 else Last(m, names, lower, n - 1)
  }

  /** Every bucket lists the names with its key, in order; an absent one has none. */
  ghost predicate BucketsHold(m: Matcher, names: seq<string>, n: nat, buckets: map<Key, seq<Entry>>)
    requires n <= |names|
  {
    forall key :: Bucket(buckets, key) == EntriesAt(m, names, Positions(m, names, Some(key), n))
  }

  function Bucket(buckets: map<Key, seq<Entry>>, key: Key): seq<Entry> {
    if key in buckets then buckets[key] else []
  }

  ghost predicate LowersHold(m: Matcher, names: seq<string>, n: nat, allLower: seq<string>)
    requires n <= |names|
  {
    allLower == LowersAt(m, names, Positions(m, names, None, n))
  }

  /** A lower form leads to the name that was listed last with it. */
  ghost predicate CanonicalHolds(m: Matcher, names: seq<string>, n: nat, canonicalOf: map<string, string>)
    requires n <= |names|
  {
    forall l :: if l == "" || Last(m, names, l, n) == -1 then l !in canonicalOf
      else l in canonicalOf && canonicalOf[l] == names[Last(m, names, l, n)]
  }

  ghost predicate Holds(m: Matcher, names: seq<string>, n: nat, index: Index)
    requires n <= |names|
  {
    && BucketsHold(m, names, n, index.buckets)
    && LowersHold(m, names, n, index.allLower)
    && CanonicalHolds(m, names, n, index.canonicalOf)
  }

  lemma BucketsGrow(m: Matcher, names: seq<string>, n: nat, buckets: map<Key, seq<Entry>>)
    requires n < |names| && BucketsHold(m, names, n, buckets)
    ensures var lower := m.lower(names[n]);
      BucketsHold(m, names, n + 1, if lower == "" then buckets else
        buckets[KeyOf(lower) := Bucket(buckets, KeyOf(lower)) + [(lower, names[n])]])
  {
    var lower := m.lower(names[n]);
    var buckets' := if lower == "" then buckets else
      buckets[KeyOf(lower) := Bucket(buckets, KeyOf(lower)) + [(lower, names[n])]];
    forall key ensures Bucket(buckets', key) == EntriesAt(m, names, Positions(m, names, Some(key), n + 1)) {
      assert Bucket(buckets, key) == EntriesAt(m, names, Positions(m, names, Some(key), n));
    }
  }

  lemma LowersGrow(m: Matcher, names: seq<string>, n: nat, allLower: seq<string>)
    requires n < |names| && LowersHold(m, names, n, allLower)
    ensures var lower := m.lower(names[n]);
      LowersHold(m, names, n + 1, if lower == "" then allLower else allLower + [lower])
  {
  }

  lemma CanonicalGrows(m: Matcher, names: seq<string>, n: nat, canonicalOf: map<string, string>)
    requires n < |names| && CanonicalHolds(m, names, n, canonicalOf)
    ensures var lower := m.lower(names[n]);
      CanonicalHolds(m, names, n + 1, if lower == "" then canonicalOf else canonicalOf[lower := names[n]])
  {
  }

  method BuildIndex(m: Matcher, names: seq<string>) returns (index: Index)
    ensures Holds(m, names, |names|, index)
  {
    index := Index(map[], [], map[]);
    for n := 0 to |names|
      invariant Holds(m, names, n, index)
    {
      var canonical := names[n];
      var lower := m.lower(canonical);
      BucketsGrow(m, names, n, index.buckets);
      LowersGrow(m, names, n, index.allLower);
      CanonicalGrows(m, names, n, index.canonicalOf);
      if lower == "" {
        continue;
      }
      var key := KeyOf(lower);
      index := Index(
        index.buckets[key := Bucket(index.buckets, key) + [(lower, canonical)]],
        index.allLower + [lower],
        index.canonicalOf[lower := canonical]);
    }
  }

  /** process.extractOne: the first of the choices that score best. */
  function FirstBest(m: Matcher, query: string, choices: seq<string>): (b: nat)
    requires choices != []
    ensures b < |choices|
    ensures forall k :: 0 <= k < |choices| ==> m.score(query, choices[k]) <= m.score(query, choices[b])
    ensures forall k :: 0 <= k < b ==> m.score(query, choices[k]) < m.score(query, choices[b])
  {
    var last := |choices| - 1;
    if last == 0 then 0
    else
      var b := FirstBest(m, query, choices[..last]);
      if m.score(query, choices[last]) > m.score(query, choices[b]) then last else b
  }

  // ---- Matching ----

  ghost predicate Near(m: Matcher, names: seq<string>, query: string, p: int)
    requires 0 <= p < |names|
  {
    var (prefix, length) := KeyOf(m.lower(names[p]));
    m.lower(names[p]) != "" && prefix == KeyOf(query).0 && -1 <= length - KeyOf(query).1 <= 1
  }

  /** What a scan looks at: the near names or, failing that, all of them. */
  ghost predicate Candidate(m: Matcher, names: seq<string>, query: string, all: bool, p: int) {
    0 <= p < |names| && if all then m.lower(names[p]) != "" else Near(m, names, query, p)
  }

  /** A scan of near names goes by length first. */
  ghost predicate Before(m: Matcher, names: seq<string>, all: bool, p: int, q: int)
    requires 0 <= p < |names| && 0 <= q < |names|
  {
    var a, b := KeyOf(m.lower(names[p])).1, KeyOf(m.lower(names[q])).1;
    if all || a == b then p < q else a < b
  }

  /** The first candidate of the best score. */
  ghost predicate Wins(m: Matcher, names: seq<string>, query: string, all: bool, p: int) {
    && Candidate(m, names, query, all, p)
    && (forall q :: Candidate(m, names, query, all, q) ==>
          var x, y := m.score(query, m.lower(names[p])), m.score(query, m.lower(names[q]));
          x >= y && (x == y && p != q ==> Before(m, names, all, p, q)))
  }

  /** The winner's name as it was listed last, if the winner is good enough. */
  ghost predicate Answers(m: Matcher, names: seq<string>, query: string, all: bool, cutoff: real, miss: string,
                          r: string) {
    exists p :: Wins(m, names, query, all, p) && Told(m, names, query, cutoff, miss, p, r)
  }

  ghost predicate Told(m: Matcher, names: seq<string>, query: string, cutoff: real, miss: string, p: int, r: string)
    requires 0 <= p < |names|
  {
    var lower := m.lower(names[p]);
    r == if m.score(query, lower) >= cutoff then names[Last(m, names, lower, |names|)] else miss
  }

  /** What a scan of the whole list answers. */
  ghost predicate Scanned(m: Matcher, names: seq<string>, kind: Kind, raw: string, r: string) {
    var normalized := m.normalize(raw);
    var query := m.lower(normalized);
    if raw == "" then r == ""
    else if query == "" then r == normalized
    else if exists p :: Candidate(m, names, query, false, p) then
      Answers(m, names, query, false, Primary(kind), normalized, r)
    else if Fallback(kind).Some? && exists p :: Candidate(m, names, query, true, p) then
      Answers(m, names, query, true, Fallback(kind).value, normalized, r)
    else r == normalized
  }

  /** The length buckets looked at are one less, the same, and one more: below this one. */
  const DRIFT_END: int := 2

  /** The query's bucket, or one `delta` further. */
  function NearKey(query: string, delta: int): Key {
    (KeyOf(query).0, KeyOf(query).1 + delta)
  }

  /** Positions of the near names, by length and then by place in the list. */
  function NearPositions(m: Matcher, names: seq<string>, query: string, upTo: int): (ps: seq<int>)
    requires -1 <= upTo <= 2
    ensures forall a :: 0 <= a < |ps| ==> 0 <= ps[a] < |names|
    decreases upTo + 1
  {
    if upTo == -1 then []
    else
      NearPositions(m, names, query, upTo - 1)
      + Positions(m, names, Some(NearKey(query, upTo - 1)), |names|)
  }

  /** `ps` lists the candidates in the order of the scan. */
  ghost predicate Lists(m: Matcher, names: seq<string>, query: string, all: bool, ps: seq<int>) {
    && (forall a :: 0 <= a < |ps| ==> Candidate(m, names, query, all, ps[a]))
    && (forall p :: Candidate(m, names, query, all, p) ==> p in ps)
    && (forall a, b :: 0 <= a < b < |ps| ==> Before(m, names, all, ps[a], ps[b]))
  }

  ghost predicate ShortOf(m: Matcher, names: seq<string>, query: string, limit: int, p: int) {
    Candidate(m, names, query, false, p) && KeyOf(m.lower(names[p])).1 - KeyOf(query).1 < limit
  }

  function Length(m: Matcher, name: string): int {
    KeyOf(m.lower(name)).1
  }

  ghost predicate ByLength(m: Matcher, names: seq<string>, ps: seq<int>) {
    && (forall a :: 0 <= a < |ps| ==> 0 <= ps[a] < |names|)
    && (forall a, b :: 0 <= a < b < |ps| ==> Before(m, names, false, ps[a], ps[b]))
  }

  ghost predicate AllShorter(m: Matcher, names: seq<string>, ps: seq<int>, length: int) {
    forall a :: 0 <= a < |ps| ==> 0 <= ps[a] < |names| && Length(m, names[ps[a]]) < length
  }

  ghost predicate AllOfLength(m: Matcher, names: seq<string>, ps: seq<int>, length: int) {
    forall a :: 0 <= a < |ps| ==> 0 <= ps[a] < |names| && Length(m, names[ps[a]]) == length
  }

  /** A bucket of longer names goes behind. */
  lemma LongerBehind(m: Matcher, names: seq<string>, before: seq<int>, next: seq<int>, length: int)
    requires ByLength(m, names, before) && Increasing(next, |names|)
    requires AllShorter(m, names, before, length) && AllOfLength(m, names, next, length)
    ensures ByLength(m, names, before + next)
  {
    var ps := before + next;
    forall a, b | 0 <= a < b < |ps| ensures Before(m, names, false, ps[a], ps[b]) {
      if b < |before| {
        assert Before(m, names, false, before[a], before[b]);
      }
    }
  }

  lemma {:induction false} NearMember(m: Matcher, names: seq<string>, query: string, limit: int, p: int)
    requires -1 <= limit <= DRIFT_END
    ensures p in NearPositions(m, names, query, limit) <==> ShortOf(m, names, query, limit, p)
    decreases limit + 1
  {
    if limit == -1 {
    } else {
      NearMember(m, names, query, limit - 1, p);
      var next := Positions(m, names, Some(NearKey(query, limit - 1)), |names|);
      assert NearPositions(m, names, query, limit) == NearPositions(m, names, query, limit - 1) + next;
    }
  }

  lemma NearAreShorter(m: Matcher, names: seq<string>, query: string, limit: int)
    requires -1 <= limit <= DRIFT_END
    ensures AllShorter(m, names, NearPositions(m, names, query, limit), KeyOf(query).1 + limit)
  {
    var ps := NearPositions(m, names, query, limit);
    forall a | 0 <= a < |ps| ensures Length(m, names[ps[a]]) < KeyOf(query).1 + limit {
      NearMember(m, names, query, limit, ps[a]);
    }
  }

  lemma BucketLength(m: Matcher, names: seq<string>, key: Key)
    ensures AllOfLength(m, names, Positions(m, names, Some(key), |names|), key.1)
  {
    var ps := Positions(m, names, Some(key), |names|);
    forall a | 0 <= a < |ps| ensures Length(m, names[ps[a]]) == key.1 {
      assert ps[a] in ps;
    }
  }

  lemma NearStep(m: Matcher, names: seq<string>, query: string, limit: int)
    requires -1 < limit <= DRIFT_END
    ensures NearPositions(m, names, query, limit)
         == NearPositions(m, names, query, limit - 1) + Positions(m, names, Some(NearKey(query, limit - 1)), |names|)
  {
  }

  /** One bucket more keeps the order. */
  lemma OneMoreBucket(m: Matcher, names: seq<string>, query: string, limit: int)
    requires -1 < limit <= DRIFT_END && ByLength(m, names, NearPositions(m, names, query, limit - 1))
    ensures ByLength(m, names, NearPositions(m, names, query, limit))
  {
    var key := NearKey(query, limit - 1);
    NearAreShorter(m, names, query, limit - 1);
    BucketLength(m, names, key);
    LongerBehind(m, names, NearPositions(m, names, query, limit - 1), Positions(m, names, Some(key), |names|), key.1);
    NearStep(m, names, query, limit);
  }

  lemma NoBucketOrdered(m: Matcher, names: seq<string>, query: string)
    ensures ByLength(m, names, NearPositions(m, names, query, -1))
  {
  }

  lemma {:induction false} NearOrdered(m: Matcher, names: seq<string>, query: string, limit: int)
    requires -1 <= limit <= DRIFT_END
    ensures ByLength(m, names, NearPositions(m, names, query, limit))
    decreases limit + 1
  {
    if limit == -1 {
      NoBucketOrdered(m, names, query);
    } else {
      NearOrdered(m, names, query, limit - 1);
      OneMoreBucket(m, names, query, limit);
    }
  }

  lemma NearListed(m: Matcher, names: seq<string>, query: string)
    ensures Lists(m, names, query, false, NearPositions(m, names, query, DRIFT_END))
  {
    var ps := NearPositions(m, names, query, DRIFT_END);
    NearOrdered(m, names, query, DRIFT_END);
    forall p ensures p in ps <==> Candidate(m, names, query, false, p) {
      NearMember(m, names, query, DRIFT_END, p);
    }
  }

  lemma AllListed(m: Matcher, names: seq<string>, query: string)
    ensures Lists(m, names, query, true, Positions(m, names, None, |names|))
  {
    var ps := Positions(m, names, None, |names|);
    forall a | 0 <= a < |ps| ensures Candidate(m, names, query, true, ps[a]) {
      assert ps[a] in ps;
    }
  }

  lemma FirstBestWins(m: Matcher, names: seq<string>, query: string, all: bool, ps: seq<int>)
    requires Lists(m, names, query, all, ps) && ps != []
    ensures Wins(m, names, query, all, ps[FirstBest(m, query, LowersAt(m, names, ps))])
  {
    var choices := LowersAt(m, names, ps);
    var b := FirstBest(m, query, choices);
    forall q | Candidate(m, names, query, all, q)
      ensures var x, y := m.score(query, m.lower(names[ps[b]])), m.score(query, m.lower(names[q]));
        x >= y && (x == y && ps[b] != q ==> Before(m, names, all, ps[b], q))
    {
      var a :| 0 <= a < |ps| && ps[a] == q;
      assert choices[a] == m.lower(names[q]) && choices[b] == m.lower(names[ps[b]]);
    }
  }

  lemma WinnerListed(m: Matcher, names: seq<string>, index: Index, p: int)
    requires Holds(m, names, |names|, index) && 0 <= p < |names| && m.lower(names[p]) != ""
    ensures var l := m.lower(names[p]);
      l in index.canonicalOf && index.canonicalOf[l] == names[Last(m, names, l, |names|)]
  {
    assert Last(m, names, m.lower(names[p]), |names|) >= p;
  }

  /** The winner's answer, once the winner is known. */
  method Answer(m: Matcher, ghost names: seq<string>, index: Index, query: string, ghost all: bool, ghost ps: seq<int>,
                choices: seq<string>, cutoff: real, miss: string) returns (r: string)
    requires Holds(m, names, |names|, index)
    requires Lists(m, names, query, all, ps) && ps != [] && choices == LowersAt(m, names, ps)
    ensures Answers(m, names, query, all, cutoff, miss, r)
  {
    var best := FirstBest(m, query, choices);
    FirstBestWins(m, names, query, all, ps);
    assert Candidate(m, names, query, all, ps[best]);
    WinnerListed(m, names, index, ps[best]);
    r := if m.score(query, choices[best]) >= cutoff then index.canonicalOf[choices[best]] else miss;
  }

  lemma EntriesAppend(m: Matcher, names: seq<string>, ps: seq<int>, qs: seq<int>)
    requires forall a :: 0 <= a < |ps| ==> 0 <= ps[a] < |names|
    requires forall a :: 0 <= a < |qs| ==> 0 <= qs[a] < |names|
    ensures EntriesAt(m, names, ps + qs) == EntriesAt(m, names, ps) + EntriesAt(m, names, qs)
  {
  }

  /** The buckets around the query's, one after the other. */
  function Gathered(buckets: map<Key, seq<Entry>>, query: string, limit: int): seq<Entry>
    requires -1 <= limit <= DRIFT_END
    decreases limit + 1
  {
    if limit == -1 then []
    else Gathered(buckets, query, limit - 1) + Bucket(buckets, NearKey(query, limit - 1))
  }

  lemma {:induction false} GatheredIsNear(m: Matcher, names: seq<string>, buckets: map<Key, seq<Entry>>,
                                          query: string, limit: int)
    requires BucketsHold(m, names, |names|, buckets) && -1 <= limit <= DRIFT_END
    ensures Gathered(buckets, query, limit) == EntriesAt(m, names, NearPositions(m, names, query, limit))
    decreases limit + 1
  {
    if limit == -1 {
    } else {
      GatheredIsNear(m, names, buckets, query, limit - 1);
      var key := NearKey(query, limit - 1);
      assert Bucket(buckets, key) == EntriesAt(m, names, Positions(m, names, Some(key), |names|));
      EntriesAppend(m, names, NearPositions(m, names, query, limit - 1), Positions(m, names, Some(key), |names|));
    }
  }

  method Gather(buckets: map<Key, seq<Entry>>, query: string) returns (candidates: seq<Entry>)
    ensures candidates == Gathered(buckets, query, DRIFT_END)
  {
    var (k0, k1) := KeyOf(query);
    candidates := [];
    for delta := -1 to DRIFT_END
      invariant candidates == Gathered(buckets, query, delta)
    {
      candidates := candidates + Bucket(buckets, (k0, k1 + delta));
    }
  }

  method NearCandidates(m: Matcher, ghost names: seq<string>, buckets: map<Key, seq<Entry>>, query: string)
    returns (candidates: seq<Entry>)
    requires BucketsHold(m, names, |names|, buckets)
    ensures candidates == EntriesAt(m, names, NearPositions(m, names, query, DRIFT_END))
  {
    candidates := Gather(buckets, query);
    GatheredIsNear(m, names, buckets, query, DRIFT_END);
  }

  /** A list is empty exactly if there are no candidates. */
  lemma ListedAny(m: Matcher, names: seq<string>, query: string, all: bool, ps: seq<int>)
    requires Lists(m, names, query, all, ps)
    ensures ps != [] <==> exists p :: Candidate(m, names, query, all, p)
  {
    if ps != [] {
      assert Candidate(m, names, query, all, ps[0]);
    }
  }

  /** _match */
  method Match(m: Matcher, ghost names: seq<string>, index: Index, kind: Kind, raw: string) returns (r: string)
    requires Holds(m, names, |names|, index)
    ensures Scanned(m, names, kind, raw, r)
  {
    if raw == "" {
      return raw;
    }
    var normalized := m.normalize(raw);
    var lower := m.lower(normalized);
    if lower == "" {
      return normalized;
    }
    var candidates := NearCandidates(m, names, index.buckets, lower);
    ghost var near, listed := NearPositions(m, names, lower, DRIFT_END), Positions(m, names, None, |names|);
    NearListed(m, names, lower);
    ListedAny(m, names, lower, false, near);
    if candidates == [] {
      AllListed(m, names, lower);
      ListedAny(m, names, lower, true, listed);
      if Fallback(kind).None? || index.allLower == [] {
        return normalized;
      }
      r := Answer(m, names, index, lower, true, listed, index.allLower, Fallback(kind).value, normalized);
    } else {
      var choices := seq(|candidates|, a requires 0 <= a < |candidates| => candidates[a].0);
      r := Answer(m, names, index, lower, false, near, choices, Primary(kind), normalized);
    }
  }

  // ---- What a scan answers ----

  lemma OneWinner(m: Matcher, names: seq<string>, query: string, all: bool, p: int, q: int)
    requires Wins(m, names, query, all, p) && Wins(m, names, query, all, q)
    ensures p == q
  {
    assert Candidate(m, names, query, all, p) && Candidate(m, names, query, all, q);
  }

  /** There is one answer to a scan, so the index decides nothing. */
  lemma ScanIsDeterministic(m: Matcher, names: seq<string>, kind: Kind, raw: string, r: string, s: string)
    requires Scanned(m, names, kind, raw, r) && Scanned(m, names, kind, raw, s)
    ensures r == s
  {
    var query := m.lower(m.normalize(raw));
    forall all, p, q | Wins(m, names, query, all, p) && Wins(m, names, query, all, q) ensures p == q {
      OneWinner(m, names, query, all, p, q);
    }
  }

  /** A listed name is found, whatever its case, as it was listed last. */
  lemma ListedNameFound(m: Matcher, names: seq<string>, kind: Kind, raw: string, p: int, r: string)
    requires Lawful(m) && Scanned(m, names, kind, raw, r)
    requires 0 <= p < |names| && raw != "" && m.lower(m.normalize(raw)) == m.lower(names[p]) != ""
    ensures r == names[Last(m, names, m.lower(names[p]), |names|)]
  {
    var query := m.lower(m.normalize(raw));
    assert Candidate(m, names, query, false, p);
    var w :| Wins(m, names, query, false, w) && Told(m, names, query, Primary(kind), m.normalize(raw), w, r);
    assert m.score(query, m.lower(names[p])) == 100.0;
    assert m.score(query, m.lower(names[w])) <= 100.0;
  }

  /** Position `p` is where the lower form of the name `r` was listed last, as `r`. */
  predicate ListedLast(m: Matcher, names: seq<string>, p: int, r: string) {
    0 <= p < |names| && names[p] == r && m.lower(r) != "" && Last(m, names, m.lower(r), |names|) == p
  }

  /** An answer is a listed name or the normalised text. */
  lemma AnswerIsListedOrRaw(m: Matcher, names: seq<string>, kind: Kind, raw: string, r: string)
    requires Scanned(m, names, kind, raw, r)
    ensures r == (if raw == "" then "" else m.normalize(raw))
      || exists p :: ListedLast(m, names, p, r)
  {
    var query := m.lower(m.normalize(raw));
    if all, p :| Wins(m, names, query, all, p) && r == names[Last(m, names, m.lower(names[p]), |names|)] {
      var l := Last(m, names, m.lower(names[p]), |names|);
      assert l >= p;
      assert ListedLast(m, names, l, r);
    }
  }

  /** Entries that extract_whitelist.py has written are in normal form. */
  ghost predicate Normalised(m: Matcher, names: seq<string>) {
    forall p :: 0 <= p < |names| ==> m.normalize(names[p]) == names[p]
  }

  /** Matching a match changes nothing. */
  lemma MatchIsIdempotent(m: Matcher, names: seq<string>, kind: Kind, raw: string, r: string, again: string)
    requires Lawful(m) && Normalised(m, names)
    requires Scanned(m, names, kind, raw, r) && Scanned(m, names, kind, r, again)
    ensures again == r
  {
    AnswerIsListedOrRaw(m, names, kind, raw, r);
    if r == (if raw == "" then "" else m.normalize(raw)) {
      if r != "" {
        assert m.normalize(r) == r;
        ScanIsDeterministic(m, names, kind, r, again, r);
      }
    } else {
      var p :| ListedLast(m, names, p, r);
      ListedNameFound(m, names, kind, r, p, again);
    }
  }

  // ---- The scan in plain terms ----

  /** The first three characters, or all if there are fewer. */
  function Head(s: string): string {
    if |s| < 3 then s else [s[0], s[1], s[2]]
  }

  /** A name is near if it starts like the query and its length in units of four is off by one at most. */
  lemma NearExactly(m: Matcher, names: seq<string>, query: string, p: int)
    requires 0 <= p < |names|
    ensures var l := m.lower(names[p]);
      Near(m, names, query, p) <==> l != "" && Head(l) == Head(query) && -1 <= |l| / 4 - |query| / 4 <= 1
  {
    var l := m.lower(names[p]);
    assert |l| >= 3 ==> l[..3] == [l[0], l[1], l[2]];
    assert |query| >= 3 ==> query[..3] == [query[0], query[1], query[2]];
  }

  /** Nothing in front of `p` is as good, and nothing is better; among near names shorter ones go in front. */
  lemma WinsExactly(m: Matcher, names: seq<string>, query: string, all: bool, p: int)
    requires 0 <= p < |names|
    ensures Wins(m, names, query, all, p) <==>
      && m.lower(names[p]) != "" && (!all ==> Near(m, names, query, p))
      && forall q :: 0 <= q < |names| && q != p && m.lower(names[q]) != "" && (!all ==> Near(m, names, query, q)) ==>
           var (x, y) := (m.score(query, m.lower(names[p])), m.score(query, m.lower(names[q])));
           var (a, b) := (|m.lower(names[p])| / 4, |m.lower(names[q])| / 4);
           y < x || (y == x && if all || a == b then p < q else a < b)
  {
    forall q ensures Candidate(m, names, query, all, q) <==>
      0 <= q < |names| && m.lower(names[q]) != "" && (!all ==> Near(m, names, query, q))
    {
    }
  }

  /** `r` is the name listed last with the lower form of name `p`. */
  ghost predicate ListedAs(m: Matcher, names: seq<string>, p: int, r: string)
    requires 0 <= p < |names|
  {
    exists k :: p <= k < |names| && names[k] == r && m.lower(r) == m.lower(names[p])
      && forall i :: k < i < |names| ==> m.lower(names[i]) != m.lower(names[p])
  }

  lemma ToldExactly(m: Matcher, names: seq<string>, query: string, cutoff: real, miss: string, p: int, r: string)
    requires 0 <= p < |names| && Told(m, names, query, cutoff, miss, p, r)
    ensures if m.score(query, m.lower(names[p])) >= cutoff then ListedAs(m, names, p, r) else r == miss
  {
    var last := Last(m, names, m.lower(names[p]), |names|);
    assert last >= p;
  }

  /** The winner `p` decides: a good enough score brings its name, another the text itself. */
  ghost predicate Decided(m: Matcher, names: seq<string>, query: string, all: bool, cutoff: real, miss: string,
                          p: int, r: string) {
    && 0 <= p < |names| && Wins(m, names, query, all, p)
    && if m.score(query, m.lower(names[p])) >= cutoff then ListedAs(m, names, p, r) else r == miss
  }

  lemma AnswersDecided(m: Matcher, names: seq<string>, query: string, all: bool, cutoff: real, miss: string, r: string)
    returns (p: int)
    requires Answers(m, names, query, all, cutoff, miss, r)
    ensures Decided(m, names, query, all, cutoff, miss, p, r)
  {
    p :| Wins(m, names, query, all, p) && Told(m, names, query, cutoff, miss, p, r);
    ToldExactly(m, names, query, cutoff, miss, p, r);
  }

  ghost predicate AnyNear(m: Matcher, names: seq<string>, query: string) {
    exists q :: 0 <= q < |names| && Near(m, names, query, q)
  }

  ghost predicate AnyNamed(m: Matcher, names: seq<string>) {
    exists q :: 0 <= q < |names| && m.lower(names[q]) != ""
  }

  lemma AnyCandidate(m: Matcher, names: seq<string>, query: string)
    ensures (exists q :: Candidate(m, names, query, false, q)) <==> AnyNear(m, names, query)
    ensures (exists q :: Candidate(m, names, query, true, q)) <==> AnyNamed(m, names)
  {
    if q :| 0 <= q < |names| && Near(m, names, query, q) {
      assert Candidate(m, names, query, false, q);
    }
    if q :| 0 <= q < |names| && m.lower(names[q]) != "" {
      assert Candidate(m, names, query, true, q);
    }
  }

  /** What a match answers. A store needs a score of 80 among near names, or of 60 among all if there is
      none near; a product needs 70 among near names. The winner's name comes back as listed last, and
      otherwise the normalised text. */
  lemma ScannedExactly(m: Matcher, names: seq<string>, kind: Kind, raw: string, r: string) returns (p: int)
    requires Scanned(m, names, kind, raw, r)
    ensures var miss := m.normalize(raw); var query := m.lower(miss);
      if raw == "" then r == ""
      else if query == "" then r == miss
      else if AnyNear(m, names, query) then
        Decided(m, names, query, false, if kind == STORE then 80.0 else 70.0, miss, p, r)
      else if kind == STORE && AnyNamed(m, names) then Decided(m, names, query, true, 60.0, miss, p, r)
      else r == miss
  {
    var miss := m.normalize(raw);
    var query := m.lower(miss);
    p := 0;
    AnyCandidate(m, names, query);
    if raw == "" || query == "" {
    } else if AnyNear(m, names, query) {
      p := AnswersDecided(m, names, query, false, Primary(kind), miss, r);
    } else if kind == STORE && AnyNamed(m, names) {
      p := AnswersDecided(m, names, query, true, 60.0, miss, r);
    }
  }
}
