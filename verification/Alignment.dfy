/** What the greedy alignment is: first-best choices, a maximal matching, a permutation. */
module Alignment {
  import opened Common
  import opened Evaluation

  /** The inner loop finds the first of the best rows that are not used. */
  lemma {:induction false} BestIsFirstMaximum(t: Text, gt: Record, preds: seq<Record>, used: set<int>, n: nat)
    requires n <= |preds|
    ensures var (idx, score) := Best(t, gt, preds, used, n);
      if idx == -1 then forall k :: 0 <= k < n ==> k in used
      else
        && idx !in used && score == Score(t, gt, preds[idx])
        && (forall k :: 0 <= k < n && k !in used ==> Score(t, gt, preds[k]) <= score)
        && (forall k :: 0 <= k < idx && k !in used ==> Score(t, gt, preds[k]) < score)
  {
    if n == 0 {
    } else {
      BestIsFirstMaximum(t, gt, preds, used, n - 1);
    }
  }

  /** A label row takes the first best unused row, and none if no unused row scores. */
  ghost predicate Chosen(t: Text, gt: Record, preds: seq<Record>, used: set<int>, c: int) {
    if c == -1 then forall k :: 0 <= k < |preds| && k !in used ==> Score(t, gt, preds[k]) == 0
    else
      && 0 <= c < |preds| && c !in used && Score(t, gt, preds[c]) > 0
      && (forall k :: 0 <= k < |preds| && k !in used ==> Score(t, gt, preds[k]) <= Score(t, gt, preds[c]))
      && (forall k :: 0 <= k < c && k !in used ==> Score(t, gt, preds[k]) < Score(t, gt, preds[c]))
  }

  lemma ChoiceIsChosen(t: Text, gt: Record, preds: seq<Record>, used: set<int>)
    ensures Chosen(t, gt, preds, used, Choice(t, gt, preds, used))
  {
    BestIsFirstMaximum(t, gt, preds, used, |preds|);
  }

  /** No two rows satisfy that, so it defines the choice. */
  lemma ChosenIsChoice(t: Text, gt: Record, preds: seq<Record>, used: set<int>, c: int)
    requires Chosen(t, gt, preds, used, c)
    ensures c == Choice(t, gt, preds, used)
  {
    ChoiceIsChosen(t, gt, preds, used);
  }

  lemma {:induction false} ChoicesPrefix(t: Text, gts: seq<Record>, preds: seq<Record>, n: nat, i: nat)
    requires i <= n <= |gts|
    ensures Choices(t, gts, preds, n)[..i] == Choices(t, gts, preds, i)
  {
    if i < n {
      ChoicesPrefix(t, gts, preds, n - 1, i);
      assert Choices(t, gts, preds, n)[..i] == Choices(t, gts, preds, n - 1)[..i];
    } else {
      assert Choices(t, gts, preds, n)[..n] == Choices(t, gts, preds, n);
    }
  }

  /** Every choice against the rows that the earlier ones left. */
  lemma ChoicesAreChosen(t: Text, gts: seq<Record>, preds: seq<Record>, n: nat, i: nat)
    requires i < n <= |gts|
    ensures var cs := Choices(t, gts, preds, n); Chosen(t, gts[i], preds, Taken(cs[..i]), cs[i])
  {
    ChoicesPrefix(t, gts, preds, n, i);
    ChoicesPrefix(t, gts, preds, n, i + 1);
    var cs := Choices(t, gts, preds, n);
    assert cs[i] == cs[..i + 1][i];
    ChoiceIsChosen(t, gts[i], preds, Taken(cs[..i]));
  }

  lemma TakenMember(cs: seq<int>, n: nat, i: nat)
    requires i < n <= |cs| && cs[i] != -1
    ensures cs[i] in Taken(cs[..n])
  {
    assert cs[..n][i] == cs[i];
  }

  lemma TakenGrows(cs: seq<int>, n: nat)
    requires n <= |cs|
    ensures Taken(cs[..n]) <= Taken(cs)
  {
    forall x | x in Taken(cs[..n]) ensures x in Taken(cs) {
      var i :| 0 <= i < n && cs[..n][i] != -1 && cs[..n][i] == x;
      assert cs[i] == x;
    }
  }

  lemma ChoicesInjective(t: Text, gts: seq<Record>, preds: seq<Record>, i: nat, k: nat)
    requires i < k < |gts|
    ensures var cs := Choices(t, gts, preds, |gts|); cs[i] != -1 ==> cs[i] != cs[k]
  {
    var cs := Choices(t, gts, preds, |gts|);
    ChoicesAreChosen(t, gts, preds, |gts|, k);
    if cs[i] != -1 {
      TakenMember(cs, k, i);
    }
  }

  // ---- A maximal matching ----

  /** A matching of label rows with predicted rows that score against each other. */
  ghost predicate Matching(t: Text, gts: seq<Record>, preds: seq<Record>, m: map<int, int>) {
    && (forall i :: i in m ==> 0 <= i < |gts| && 0 <= m[i] < |preds| && Score(t, gts[i], preds[m[i]]) > 0)
    && (forall i, k :: i in m && k in m && m[i] == m[k] ==> i == k)
  }

  ghost function Greedy(t: Text, gts: seq<Record>, preds: seq<Record>): map<int, int> {
    var cs := Choices(t, gts, preds, |gts|);
    map i | 0 <= i < |cs| && cs[i] != -1 :: cs[i]
  }

  lemma GreedyIsMatching(t: Text, gts: seq<Record>, preds: seq<Record>)
    ensures Matching(t, gts, preds, Greedy(t, gts, preds))
  {
    var m := Greedy(t, gts, preds);
    forall i | i in m ensures Score(t, gts[i], preds[m[i]]) > 0 {
      ChoicesAreChosen(t, gts, preds, |gts|, i);
    }
    forall i, k | i in m && k in m && i < k ensures m[i] != m[k] {
      ChoicesInjective(t, gts, preds, i, k);
    }
  }

  /** No pair that scores is left with both ends free. */
  lemma GreedyIsMaximal(t: Text, gts: seq<Record>, preds: seq<Record>, i: nat, k: nat)
    requires i < |gts| && k < |preds| && Score(t, gts[i], preds[k]) > 0
    ensures i in Greedy(t, gts, preds) || k in Greedy(t, gts, preds).Values
  {
    var cs, m := Choices(t, gts, preds, |gts|), Greedy(t, gts, preds);
    if cs[i] == -1 {
      ChoicesAreChosen(t, gts, preds, |gts|, i);
      assert k in Taken(cs[..i]);
      TakenGrows(cs, i);
      var n :| 0 <= n < |cs| && cs[n] != -1 && cs[n] == k;
      assert n in m && m[n] == k;
    } else {
      assert i in m;
    }
  }

  lemma {:induction false} InjectiveValues<K, V>(m: map<K, V>)
    requires forall i, k :: i in m && k in m && m[i] == m[k] ==> i == k
    ensures |m.Values| == |m|
  {
    if m.Keys == {} {
      assert m == map[];
      assert m.Values == {};
    } else {
      var i :| i in m.Keys;
      var rest := map k | k in m && k != i :: m[k];
      assert m.Values == rest.Values + {m[i]} by {
        forall v | v in m.Values && v != m[i] ensures v in rest.Values {
          var k :| k in m.Keys && m[k] == v;
          assert k in rest && rest[k] == v;
        }
      }
      assert m[i] !in rest.Values;
      InjectiveValues(rest);
      assert m.Keys == rest.Keys + {i};
      assert |m| == |m.Keys| && |rest| == |rest.Keys|;
    }
  }

  /** The greedy alignment aligns at least half as many rows as any alignment can. */
  lemma GreedyIsHalfOptimal(t: Text, gts: seq<Record>, preds: seq<Record>, other: map<int, int>)
    requires Matching(t, gts, preds, other)
    ensures |other| <= 2 * |Greedy(t, gts, preds)|
  {
    var m := Greedy(t, gts, preds);
    GreedyIsMatching(t, gts, preds);
    InjectiveValues(m);
    var rest := map i | i in other && i !in m :: other[i];
    forall v | v in rest.Values ensures v in m.Values {
      var i :| i in rest && rest[i] == v;
      GreedyIsMaximal(t, gts, preds, i, v);
    }
    InjectiveValues(rest);
    SubsetSize(rest.Values, m.Values);
    SubsetSize(other.Keys, m.Keys + rest.Keys);
    UnionSize(m.Keys, rest.Keys);
    assert |other| == |other.Keys| && |m| == |m.Keys| && |rest| == |rest.Keys|;
  }

  lemma {:induction false} SubsetSize<T>(a: set<T>, b: set<T>)
    requires a <= b
    ensures |a| <= |b|
  {
    if a == {} {
    } else {
      var x :| x in a;
      SubsetSize(a - {x}, b - {x});
    }
  }

  lemma UnionSize(a: set<int>, b: set<int>)
    ensures |a + b| <= |a| + |b|
  {
    assert |a + b| + |a * b| == |a| + |b|;
  }

  // ---- A permutation ----

  function One(b: bool): nat {
    if b then 1 else 0
  }

  /** How many label rows took a row equal to `row`, and how many took none. */
  function Used(preds: seq<Record>, cs: seq<int>, row: Record): nat
    requires forall i :: 0 <= i < |cs| ==> -1 <= cs[i] < |preds|
  {
    if cs == [] then 0
    else
      var last := |cs| - 1;
      Used(preds, cs[..last], row) + One(cs[last] != -1 && preds[cs[last]] == row)
  }

  function Blanks(cs: seq<int>): nat {
    if cs == [] then 0 else Blanks(cs[..|cs| - 1]) + One(cs[|cs| - 1] == -1)
  }

  lemma OneMoreCounted<T>(s: seq<T>, x: T, y: T)
    ensures multiset(s + [x])[y] == multiset(s)[y] + One(x == y)
  {
  }

  lemma {:induction false} RowsAreUsedAndBlank(preds: seq<Record>, cs: seq<int>, row: Record)
    requires forall i :: 0 <= i < |cs| ==> -1 <= cs[i] < |preds|
    ensures multiset(Rows(preds, cs))[row] == Used(preds, cs, row) + if row == map[] then Blanks(cs) else 0
  {
    if cs == [] {
    } else {
      var init, last := cs[..|cs| - 1], cs[|cs| - 1];
      RowsAreUsedAndBlank(preds, init, row);
      assert cs == init + [last];
      RowsSnoc(preds, init, last);
      OneMoreCounted(Rows(preds, init), Row(preds, last), row);
    }
  }

  /** How many of the rows 0, ..., n-1 that are in `taken` equal `row`. */
  function Picked(preds: seq<Record>, taken: set<int>, n: nat, row: Record): nat
    requires n <= |preds|
  {
    if n == 0 then 0 else Picked(preds, taken, n - 1, row) + One(n - 1 in taken && preds[n - 1] == row)
  }

  lemma LeftoverStep(preds: seq<Record>, taken: set<int>, n: nat, row: Record)
    requires n < |preds|
    ensures multiset(Leftover(preds, taken, n + 1))[row]
         == multiset(Leftover(preds, taken, n))[row] + One(n !in taken && preds[n] == row)
  {
    var left := Leftover(preds, taken, n);
    if n in taken {
      assert Leftover(preds, taken, n + 1) == left + [] == left;
    } else {
      assert Leftover(preds, taken, n + 1) == left + [preds[n]];
      OneMoreCounted(left, preds[n], row);
    }
  }

  lemma PrefixStep(preds: seq<Record>, n: nat, row: Record)
    requires n < |preds|
    ensures multiset(preds[..n + 1])[row] == multiset(preds[..n])[row] + One(preds[n] == row)
  {
    assert preds[..n + 1] == preds[..n] + [preds[n]];
    OneMoreCounted(preds[..n], preds[n], row);
  }

  lemma NothingLeft(preds: seq<Record>, taken: set<int>, row: Record)
    ensures multiset(Leftover(preds, taken, 0))[row] == 0 && multiset(preds[..0])[row] == 0
  {
  }

  lemma {:induction false} PickedOrLeft(preds: seq<Record>, taken: set<int>, n: nat, row: Record)
    requires n <= |preds|
    ensures Picked(preds, taken, n, row) + multiset(Leftover(preds, taken, n))[row] == multiset(preds[..n])[row]
  {
    if n == 0 {
      NothingLeft(preds, taken, row);
    } else {
      var m := n - 1;
      PickedOrLeft(preds, taken, m, row);
      PickedStep(preds, taken, m, row);
      LeftoverStep(preds, taken, m, row);
      PrefixStep(preds, m, row);
    }
  }

  lemma PickedStep(preds: seq<Record>, taken: set<int>, n: nat, row: Record)
    requires n < |preds|
    ensures Picked(preds, taken, n + 1, row) == Picked(preds, taken, n, row) + One(n in taken && preds[n] == row)
  {
  }

  lemma {:induction false} PickOneMore(preds: seq<Record>, taken: set<int>, c: nat, n: nat, row: Record)
    requires n <= |preds| && c < |preds| && c !in taken
    ensures Picked(preds, taken + {c}, n, row) == Picked(preds, taken, n, row) + One(c < n && preds[c] == row)
  {
    if n == 0 {
    } else {
      PickOneMore(preds, taken, c, n - 1, row);
    }
  }

  lemma {:induction false} NonePicked(preds: seq<Record>, n: nat, row: Record)
    requires n <= |preds|
    ensures Picked(preds, {}, n, row) == 0
  {
    if n == 0 {
    } else {
      NonePicked(preds, n - 1, row);
    }
  }

  /** No row is taken twice, so the rows taken are those in the set of taken ones. */
  lemma {:induction false} UsedIsPicked(preds: seq<Record>, cs: seq<int>, row: Record)
    requires forall i :: 0 <= i < |cs| ==> -1 <= cs[i] < |preds|
    requires forall i, k :: 0 <= i < k < |cs| && cs[i] != -1 ==> cs[i] != cs[k]
    ensures Used(preds, cs, row) == Picked(preds, Taken(cs), |preds|, row)
  {
    if cs == [] {
      NonePicked(preds, |preds|, row);
      assert Taken(cs) == {};
    } else {
      var init, last := cs[..|cs| - 1], cs[|cs| - 1];
      UsedIsPicked(preds, init, row);
      assert cs == init + [last];
      TakenSnoc(init, last);
      if last != -1 {
        assert last !in Taken(init);
        PickOneMore(preds, Taken(init), last, |preds|, row);
      }
    }
  }

  lemma AlignedCount(t: Text, gts: seq<Record>, preds: seq<Record>, row: Record)
    ensures var cs := Choices(t, gts, preds, |gts|);
      multiset(Aligned(t, gts, preds))[row] == multiset(preds)[row] + if row == map[] then Blanks(cs) else 0
  {
    var cs := Choices(t, gts, preds, |gts|);
    forall i, k | 0 <= i < k < |cs| && cs[i] != -1 ensures cs[i] != cs[k] {
      ChoicesInjective(t, gts, preds, i, k);
    }
    RowsAreUsedAndBlank(preds, cs, row);
    UsedIsPicked(preds, cs, row);
    PickedOrLeft(preds, Taken(cs), |preds|, row);
    assert preds[..|preds|] == preds;
  }

  /** The aligned rows are the predicted rows, each exactly once, and one blank row for every
      label row without a partner. */
  lemma AlignedIsPermutation(t: Text, gts: seq<Record>, preds: seq<Record>)
    ensures var cs := Choices(t, gts, preds, |gts|);
      multiset(Aligned(t, gts, preds)) == multiset(preds) + multiset{}[map[] := Blanks(cs)]
  {
    var cs := Choices(t, gts, preds, |gts|);
    forall row: Record
      ensures multiset(Aligned(t, gts, preds))[row] == (multiset(preds) + multiset{}[map[] := Blanks(cs)])[row]
    {
      AlignedCount(t, gts, preds, row);
    }
  }
}
