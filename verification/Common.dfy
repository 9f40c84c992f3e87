/** Small building blocks shared by the models. */
module Common {

  datatype Option<+T> = None | Some(value: T)

  /** The sum of `weight` over the elements of `s`. */
  ghost function SumBy<T(!new)>(s: seq<T>, weight: T -> nat): nat
  {
    if s == [] then 0 else weight(s[0]) + SumBy(s[1..], weight)
  }

  lemma {:induction false} SumByAppend<T(!new)>(s: seq<T>, t: seq<T>, weight: T -> nat)
    ensures SumBy(s + t, weight) == SumBy(s, weight) + SumBy(t, weight)
  {
    if s == [] {
      assert s + t == t;
    } else {
      assert (s + t)[1..] == s[1..] + t;
      SumByAppend(s[1..], t, weight);
    }
  }

  /** Replacing one element changes the sum by the difference of the two weights. */
  lemma {:induction false} SumByUpdate<T(!new)>(s: seq<T>, i: nat, x: T, weight: T -> nat)
    requires i < |s|
    ensures SumBy(s[i := x], weight) + weight(s[i]) == SumBy(s, weight) + weight(x)
  {
    if i == 0 {
      assert s[0 := x][1..] == s[1..];
    } else {
      assert s[i := x][1..] == s[1..][i - 1 := x];
      SumByUpdate(s[1..], i - 1, x, weight);
    }
  }

  /** Every element weighs at most the whole sum. */
  lemma {:induction false} SumByMember<T(!new)>(s: seq<T>, i: nat, weight: T -> nat)
    requires i < |s|
    ensures weight(s[i]) <= SumBy(s, weight)
  {
    if i == 0 {
    } else {
      SumByMember(s[1..], i - 1, weight);
    }
  }

  lemma {:induction false} SumByZero<T(!new)>(s: seq<T>, weight: T -> nat)
    requires forall i :: 0 <= i < |s| ==> weight(s[i]) == 0
    ensures SumBy(s, weight) == 0
  {
    if s == [] {
    } else {
      SumByZero(s[1..], weight);
    }
  }

  /** A positive sum has an element of positive weight. */
  lemma {:induction false} SumByPositive<T(!new)>(s: seq<T>, weight: T -> nat) returns (i: nat)
    requires SumBy(s, weight) > 0
    ensures i < |s| && weight(s[i]) > 0
  {
    if weight(s[0]) > 0 {
      i := 0;
    } else {
      i := SumByPositive(s[1..], weight);
      i := i + 1;
    }
  }

  /** Taking the last element off a sequence takes its weight off the sum. */
  lemma SumBySnoc<T(!new)>(s: seq<T>, weight: T -> nat)
    requires s != []
    ensures SumBy(s, weight) == SumBy(s[..|s| - 1], weight) + weight(s[|s| - 1])
  {
    var front, last := s[..|s| - 1], s[|s| - 1];
    assert s == front + [last];
    SumByAppend(front, [last], weight);
    assert SumBy([last], weight) == weight(last) + SumBy([last][1..], weight);
    assert [last][1..] == [];
  }

  lemma {:induction false} SumByAdd<T(!new)>(s: seq<T>, u: T -> nat, v: T -> nat, w: T -> nat)
    requires forall x :: w(x) <= u(x) + v(x)
    ensures SumBy(s, w) <= SumBy(s, u) + SumBy(s, v)
  {
    if s == [] {
    } else {
      SumByAdd(s[1..], u, v, w);
    }
  }
}
