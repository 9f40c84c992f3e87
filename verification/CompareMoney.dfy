/** What two amounts have in common when the scorer calls them equal. */
module CompareMoney {
  import opened Common
  import opened Evaluation
  import M = Money
  import R = RoundTrip

  predicate AsciiDigits(s: string) {
    forall i :: 0 <= i < |s| ==> '0' <= s[i] <= '9'
  }

  lemma {:induction false} LeadingZero(s: string)
    requires AsciiDigits(s) && s != "" && s[0] == '0'
    ensures M.Natural(s) == M.Natural(s[1..])
  {
    if |s| == 1 {
    } else {
      LeadingZero(s[..|s| - 1]);
      assert s[1..][..|s| - 2] == s[..|s| - 1][1..];
    }
  }

  lemma {:induction false} ZerosDropped(s: string)
    requires AsciiDigits(s)
    ensures var d := DropZeros(s);
      AsciiDigits(d) && M.Natural(d) == M.Natural(s) && (d != "" ==> d[0] != '0')
  {
    if s != "" && s[0] == '0' {
      LeadingZero(s);
      ZerosDropped(s[1..]);
    }
  }

  lemma {:induction false} PositiveWithoutZero(s: string)
    requires AsciiDigits(s) && s != "" && s[0] != '0'
    ensures M.Natural(s) > 0
  {
    if |s| == 1 {
    } else {
      PositiveWithoutZero(s[..|s| - 1]);
    }
  }

  /** Without leading zeros a number is written in one way. */
  lemma {:induction false} OneNumeral(a: string, b: string)
    requires AsciiDigits(a) && AsciiDigits(b) && M.Natural(a) == M.Natural(b)
    requires (a != "" ==> a[0] != '0') && (b != "" ==> b[0] != '0')
    ensures a == b
  {
    if a == "" {
      if b != "" {
        PositiveWithoutZero(b);
      }
    } else if b == "" {
      PositiveWithoutZero(a);
    } else {
      var p, q := a[..|a| - 1], b[..|b| - 1];
      LastDigits(M.Natural(p), a[|a| - 1] as int - '0' as int, M.Natural(q), b[|b| - 1] as int - '0' as int);
      OneNumeral(p, q);
      assert a == p + [a[|a| - 1]] && b == q + [b[|b| - 1]];
    }
  }

  lemma LastDigits(x: int, d: int, y: int, e: int)
    requires 0 <= d < 10 && 0 <= e < 10 && 10 * x + d == 10 * y + e
    ensures x == y && d == e
  {
  }

  /** Two amounts compare equal exactly if their digits, thousands marks and leading zeros aside,
      stand for the same number. */
  lemma EqualMoneyIsEqualNumber(t: Text, x: string, y: string)
    requires x != "" && y != "" && AsciiDigits(t.Digits(x)) && AsciiDigits(t.Digits(y))
    ensures t.Money(x) == t.Money(y) <==> M.Natural(t.Digits(x)) == M.Natural(t.Digits(y))
  {
    var a, b := DropZeros(t.Digits(x)), DropZeros(t.Digits(y));
    ZerosDropped(t.Digits(x));
    ZerosDropped(t.Digits(y));
    if M.Natural(a) == M.Natural(b) {
      OneNumeral(a, b);
    } else {
      assert a != b;
      assert a == "" ==> b[0] != '0';
      assert b == "" ==> a[0] != '0';
    }
  }

  // ---- Digits of every script ----

  /** `a` is `b` with zeros in front, or the other way round. */
  ghost predicate SameButZeros(a: string, b: string) {
    exists n: nat :: Zeros(n) + a == b || Zeros(n) + b == a
  }

  function Zeros(n: nat): string {
    if n == 0 then "" else "0" + Zeros(n - 1)
  }

  lemma {:induction false} ZerosInFront(s: string) returns (n: nat)
    ensures s == Zeros(n) + DropZeros(s) && (DropZeros(s) != "" ==> DropZeros(s)[0] != '0')
  {
    if s != "" && s[0] == '0' {
      var m := ZerosInFront(s[1..]);
      n := m + 1;
      assert s == "0" + s[1..] && Zeros(n) + DropZeros(s) == "0" + (Zeros(m) + DropZeros(s));
    } else {
      n := 0;
      assert Zeros(0) + DropZeros(s) == s;
    }
  }

  lemma {:induction false} FrontZerosDropped(n: nat, s: string)
    ensures DropZeros(Zeros(n) + s) == DropZeros(s)
  {
    if n == 0 {
      assert Zeros(0) + s == s;
    } else {
      FrontZerosDropped(n - 1, s);
      assert Zeros(n) + s == "0" + (Zeros(n - 1) + s);
      assert (Zeros(n) + s)[1..] == Zeros(n - 1) + s;
    }
  }

  lemma {:induction false} ZerosAppend(m: nat, n: nat)
    ensures Zeros(m + n) == Zeros(m) + Zeros(n)
  {
    if m == 0 {
    } else {
      ZerosAppend(m - 1, n);
      assert Zeros(m) + Zeros(n) == "0" + (Zeros(m - 1) + Zeros(n));
    }
  }

  lemma MoreZeros(d: string, m: nat, n: nat)
    requires m <= n
    ensures Zeros(n - m) + (Zeros(m) + d) == Zeros(n) + d
  {
    ZerosAppend(n - m, m);
  }

  lemma SameDroppedIsSameButZeros(a: string, b: string)
    ensures DropZeros(a) == DropZeros(b) <==> SameButZeros(a, b)
  {
    if n: nat :| Zeros(n) + a == b || Zeros(n) + b == a {
      FrontZerosDropped(n, a);
      FrontZerosDropped(n, b);
    }
    if DropZeros(a) == DropZeros(b) {
      SameDroppedPads(a, b);
    }
  }

  lemma SameDroppedPads(a: string, b: string)
    requires DropZeros(a) == DropZeros(b)
    ensures SameButZeros(a, b)
  {
    var m := ZerosInFront(a);
    var n := ZerosInFront(b);
    var d := DropZeros(a);
    if m <= n {
      MoreZeros(d, m, n);
    } else {
      MoreZeros(d, n, m);
    }
  }

  lemma EqualMoneyIsSameButZeros(t: Text, x: string, y: string)
    requires x != "" && y != ""
    ensures t.Money(x) == t.Money(y) <==> SameButZeros(t.Digits(x), t.Digits(y))
  {
    var a, b := t.Digits(x), t.Digits(y);
    SameDroppedIsSameButZeros(a, b);
    var m := ZerosInFront(a);
    var n := ZerosInFront(b);
  }

  // ---- What compare_field calls right ----

  /** On all inputs: an amount is right exactly if both texts are there and both are blank, or
      neither is and their digits are the same but for zeros in front. */
  lemma AmountIsRightExactly(t: Text, pred: string, gt: string, f: Field)
    requires Lawful(t) && IsMoney(f)
    ensures Compare(t, pred, gt, f) == Some(true) <==>
      && pred != "" && gt != "" && (Blank(t, pred) <==> Blank(t, gt))
      && (Blank(t, pred) || SameButZeros(t.Digits(pred), t.Digits(gt)))
  {
    if pred != "" && gt != "" && !Blank(t, pred) && !Blank(t, gt) {
      R.MoneyOfClean(t, pred);
      R.MoneyOfClean(t, gt);
      EqualMoneyIsSameButZeros(t, pred, gt);
    }
  }

  /** So where its digits and the label's are ASCII it is right exactly if it is the label's number,
      blank text being equal to blank text only. */
  lemma AmountIsRightByValue(t: Text, pred: string, gt: string, f: Field)
    requires Lawful(t) && IsMoney(f)
    ensures AsciiDigits(t.Digits(pred)) && AsciiDigits(t.Digits(gt)) ==>
      (Compare(t, pred, gt, f) == Some(true) <==>
        && pred != "" && gt != "" && (Blank(t, pred) <==> Blank(t, gt))
        && (Blank(t, pred) || M.Natural(t.Digits(pred)) == M.Natural(t.Digits(gt))))
  {
    if && pred != "" && gt != "" && !Blank(t, pred) && !Blank(t, gt)
       && AsciiDigits(t.Digits(pred)) && AsciiDigits(t.Digits(gt)) {
      R.MoneyOfClean(t, pred);
      R.MoneyOfClean(t, gt);
      EqualMoneyIsEqualNumber(t, pred, gt);
    }
  }
}
