/** What the scorer reports, told by the texts alone: when a field is right, what the alignment
    scores, and what the results and the mismatches are. */
module Scoring {
  import opened Common
  import opened Evaluation
  import opened Results
  import opened CompareMoney
  import R = RoundTrip

  // ---- When a field is right ----

  /** `x` without its stars is `r`: every other character, in order. */
  ghost predicate StarsOut(x: string, r: string) {
    if x == "" then r == ""
    else if x[|x| - 1] == '*' then StarsOut(x[..|x| - 1], r)
    else r != "" && r[|r| - 1] == x[|x| - 1] && StarsOut(x[..|x| - 1], r[..|r| - 1])
  }

  lemma {:induction false} DropStarsSnoc(x: string, c: char)
    ensures DropStars(x + [c]) == DropStars(x) + if c == '*' then "" else [c]
  {
    if x == "" {
      assert x + [c] == [c] && [c][1..] == "";
    } else {
      assert (x + [c])[1..] == x[1..] + [c];
      DropStarsSnoc(x[1..], c);
    }
  }

  lemma {:induction false} StarsOutIsDropStars(x: string, r: string)
    ensures StarsOut(x, r) <==> r == DropStars(x)
  {
    if x == "" {
    } else {
      var init, c := x[..|x| - 1], x[|x| - 1];
      assert x == init + [c];
      DropStarsSnoc(init, c);
      if c == '*' {
        StarsOutIsDropStars(init, r);
      } else if r != "" {
        StarsOutIsDropStars(init, r[..|r| - 1]);
        assert r == r[..|r| - 1] + [r[|r| - 1]];
      }
    }
  }

  /** The two texts are the same once the stars are out. */
  ghost predicate SameButStars(x: string, y: string) {
    exists r: string :: StarsOut(x, r) && StarsOut(y, r)
  }

  lemma SameButStarsExactly(x: string, y: string)
    ensures SameButStars(x, y) <==> DropStars(x) == DropStars(y)
  {
    StarsOutIsDropStars(x, DropStars(x));
    StarsOutIsDropStars(y, DropStars(x));
    forall r: string ensures (StarsOut(x, r) <==> r == DropStars(x)) && (StarsOut(y, r) <==> r == DropStars(y)) {
      StarsOutIsDropStars(x, r);
      StarsOutIsDropStars(y, r);
    }
  }

  /** The predicted text counts as the label's. Amounts: both blank, or the same digits but for zeros
      in front. Barcodes: the same but for stars. Quantities: the same normal form. Product names: a
      similarity above 0.95. All other fields: the same text. Case and outer blanks do not matter. */
  ghost predicate Right(t: Text, pred: string, gt: string, f: Field) {
    var p, g := t.lower(t.strip(pred)), t.lower(t.strip(gt));
    && pred != "" && gt != ""
    && (match f
        case TOTAL_MONEY => RightAmount(t, pred, gt)
        case PRODUCT_UNIT_PRICE => RightAmount(t, pred, gt)
        case PRODUCT_TOTAL_MONEY => RightAmount(t, pred, gt)
        case BARCODE => SameButStars(p, g)
        case PRODUCT_QUANTITY => t.quantity(p) == t.quantity(g)
        case PRODUCT_NAME => t.ratio(p, g) > 0.95
        case _ => p == g)
  }

  ghost predicate RightAmount(t: Text, pred: string, gt: string) {
    (Blank(t, pred) <==> Blank(t, gt)) && (Blank(t, pred) || SameButZeros(t.Digits(pred), t.Digits(gt)))
  }

  /** compare_field is silent exactly where the label is, and says right exactly of what is right. */
  lemma FieldIsRightExactly(t: Text, pred: string, gt: string, f: Field)
    requires Lawful(t)
    ensures Compare(t, pred, gt, f).None? <==> gt == ""
    ensures Compare(t, pred, gt, f) == Some(true) <==> Right(t, pred, gt, f)
  {
    if IsMoney(f) {
      AmountIsRight(t, pred, gt, f);
    } else {
      TextIsRight(t, pred, gt, f);
    }
  }

  lemma AmountIsRight(t: Text, pred: string, gt: string, f: Field)
    requires Lawful(t) && IsMoney(f)
    ensures Compare(t, pred, gt, f) == Some(true) <==> Right(t, pred, gt, f)
  {
    AmountIsRightExactly(t, pred, gt, f);
  }

  lemma TextIsRight(t: Text, pred: string, gt: string, f: Field)
    requires !IsMoney(f)
    ensures Compare(t, pred, gt, f) == Some(true) <==> Right(t, pred, gt, f)
  {
    if f == BARCODE {
      SameButStarsExactly(t.Clean(pred), t.Clean(gt));
    }
  }

  // ---- What is reported ----

  /** The verdict on a field of the invoice itself: none if the label is silent. */
  ghost function Told(t: Text, pred: string, gt: string, f: Field): seq<bool> {
    if gt == "" then [] else [Right(t, pred, gt, f)]
  }

  lemma ReportedIsTold(t: Text, pred: string, gt: string, f: Field)
    requires Lawful(t)
    ensures Reported(Compare(t, pred, gt, f)) == Told(t, pred, gt, f)
  {
    FieldIsRightExactly(t, pred, gt, f);
  }

  predicate OfProduct(f: Field) {
    f.PRODUCT_ID? || f.PRODUCT_NAME? || f.PRODUCT_UNIT_PRICE? || f.PRODUCT_QUANTITY? || f.PRODUCT_TOTAL_MONEY?
  }

  /** Every field is compared, and once. */
  lemma EveryFieldCompared(f: Field)
    ensures f in PRODUCT_FIELDS <==> OfProduct(f)
    ensures f in BASE_FIELDS <==> !OfProduct(f)
    ensures forall i, k :: 0 <= i < k < |BASE_FIELDS| ==> BASE_FIELDS[i] != BASE_FIELDS[k]
    ensures forall i, k :: 0 <= i < k < |PRODUCT_FIELDS| ==> PRODUCT_FIELDS[i] != PRODUCT_FIELDS[k]
  {
    var b, p := BASE_FIELDS, PRODUCT_FIELDS;
    assert b[0] == NAME && b[1] == TYPE && b[2] == DATE && b[3] == TIME && b[4] == POS_ID;
    assert b[5] == RECEIPT_NUMBER && b[6] == CASHIER && b[7] == TOTAL_MONEY && b[8] == BARCODE;
    assert p[0] == PRODUCT_ID && p[1] == PRODUCT_NAME && p[2] == PRODUCT_UNIT_PRICE;
    assert p[3] == PRODUCT_QUANTITY && p[4] == PRODUCT_TOTAL_MONEY;
  }

  lemma BaseRefs(f: Field) returns (k: nat)
    requires f in BASE_FIELDS
    ensures k < |BASE_FIELDS| && BASE_FIELDS[k] == f && f !in PRODUCT_FIELDS
    ensures forall i :: 0 <= i < |BASE_FIELDS| && i != k ==> BASE_FIELDS[i] != f
  {
    k :| 0 <= k < |BASE_FIELDS| && BASE_FIELDS[k] == f;
  }

  lemma BasePass(verdict: Ref -> Option<bool>, f: Field, k: nat)
    requires k < |BASE_FIELDS| && BASE_FIELDS[k] == f
    requires forall i :: 0 <= i < |BASE_FIELDS| && i != k ==> BASE_FIELDS[i] != f
    ensures ResultsOf(verdict, Refs(BASE_FIELDS, None), f) == Reported(verdict(Base(f)))
  {
    var refs := Refs(BASE_FIELDS, None);
    var before, after := refs[..k], refs[k + 1..];
    forall r | r in before || r in after ensures r.field != f {
    }
    OneField(verdict, before, Base(f), after);
    assert refs[k] == Base(f);
    assert refs == refs[..k] + [refs[k]] + refs[k + 1..];
  }

  lemma {:induction false} BaseResults(verdict: Ref -> Option<bool>, n: nat, f: Field)
    requires f in BASE_FIELDS
    ensures ResultsOf(verdict, AllRefs(n), f) == Reported(verdict(Base(f)))
  {
    var k := BaseRefs(f);
    if n == 0 {
      BasePass(verdict, f, k);
    } else {
      BaseResults(verdict, n - 1, f);
      var row := Refs(PRODUCT_FIELDS, Some(n - 1));
      forall ref | ref in row ensures ref.field != f {
      }
      OtherFields(verdict, row, f);
      ResultsAppend(verdict, AllRefs(n - 1), row, f);
    }
  }

  /** results[f] for a field of the invoice itself. */
  lemma BaseFieldReported(t: Text, pred: Invoice, gt: Invoice, f: Field)
    requires Lawful(t) && !OfProduct(f)
    ensures At(Collected(Evaluated(t, pred, gt)), f) == Told(t, Get(pred.fields, f), Get(gt.fields, f), f)
  {
    var a := AlignedInvoice(t, pred, gt);
    var verdict := (ref: Ref) => Verdict(t, a, gt, ref);
    EveryFieldCompared(f);
    EvaluatedOnLabels(t, pred, gt);
    CollectedResults(t, a, gt, verdict, AllRefs(|gt.products|), f);
    BaseResults(verdict, |gt.products|, f);
    ReportedIsTold(t, Get(pred.fields, f), Get(gt.fields, f), f);
  }

  /** What the rows of the label get, `rows` being what stands beside them. */
  ghost function RowsTold(t: Text, rows: seq<Record>, gts: seq<Record>, n: nat, f: Field): seq<bool>
    requires n <= |gts| && n <= |rows|
  {
    if n == 0 then []
    else RowsTold(t, rows, gts, n - 1, f) + Told(t, Get(rows[n - 1], f), Get(gts[n - 1], f), f)
  }

  lemma RowTold(t: Text, a: Invoice, gt: Invoice, i: nat, f: Field)
    requires Lawful(t) && i < |gt.products| && i < |a.products|
    ensures Reported(Verdict(t, a, gt, Product(i, f))) == Told(t, Get(a.products[i], f), Get(gt.products[i], f), f)
  {
    ReportedIsTold(t, Get(a.products[i], f), Get(gt.products[i], f), f);
  }

  /** What `verdict` reports on label row `i` is what is told of it. */
  ghost predicate TellsRow(t: Text, a: Invoice, gt: Invoice, verdict: Ref -> Option<bool>, f: Field, i: nat)
    requires i < |gt.products| && i < |a.products|
  {
    Reported(verdict(Product(i, f))) == Told(t, Get(a.products[i], f), Get(gt.products[i], f), f)
  }

  lemma {:induction false} RowResultsTold(t: Text, a: Invoice, gt: Invoice, verdict: Ref -> Option<bool>,
                                          n: nat, f: Field)
    requires n <= |gt.products| && n <= |a.products|
    requires forall i :: 0 <= i < n ==> TellsRow(t, a, gt, verdict, f, i)
    ensures RowResults(verdict, n, f) == RowsTold(t, a.products, gt.products, n, f)
  {
    if n == 0 {
    } else {
      RowResultsTold(t, a, gt, verdict, n - 1, f);
      assert TellsRow(t, a, gt, verdict, f, n - 1);
    }
  }

  /** results[f] for a product field: row by row, whether the aligned row has it right. */
  lemma ProductFieldReported(t: Text, pred: Invoice, gt: Invoice, f: Field)
    requires Lawful(t) && OfProduct(f)
    ensures At(Collected(Evaluated(t, pred, gt)), f)
         == RowsTold(t, Aligned(t, gt.products, pred.products), gt.products, |gt.products|, f)
  {
    var a := AlignedInvoice(t, pred, gt);
    var verdict := (ref: Ref) => Verdict(t, a, gt, ref);
    EveryFieldCompared(f);
    EvaluatedByRow(t, pred, gt, f);
    CollectedResults(t, a, gt, verdict, AllRefs(|gt.products|), f);
    EvaluatedOnLabels(t, pred, gt);
    ResultsByRow(verdict, |gt.products|, f);
    forall i | 0 <= i < |gt.products| ensures TellsRow(t, a, gt, verdict, f, i) {
      RowTold(t, a, gt, i, f);
    }
    RowResultsTold(t, a, gt, verdict, |gt.products|, f);
  }

  /** The mismatches: one for every field that the label has and the prediction has wrong, with both
      texts stripped. */
  ghost predicate Wrong(t: Text, a: Invoice, gt: Invoice, ref: Ref) {
    Value(gt, ref) != "" && !Right(t, Value(a, ref), Value(gt, ref), ref.field)
  }

  function Mismatch(t: Text, a: Invoice, gt: Invoice, ref: Ref): Check {
    Check(ref, false, t.strip(Value(gt, ref)), t.strip(Value(a, ref)))
  }

  /** The mismatches among `refs`, in order. */
  ghost function WrongOnes(t: Text, a: Invoice, gt: Invoice, refs: seq<Ref>): seq<Check> {
    if refs == [] then []
    else
      var init, last := refs[..|refs| - 1], refs[|refs| - 1];
      WrongOnes(t, a, gt, init) + if Wrong(t, a, gt, last) then [Mismatch(t, a, gt, last)] else []
  }

  lemma WrongIsFalse(t: Text, a: Invoice, gt: Invoice, ref: Ref)
    requires Lawful(t)
    ensures Wrong(t, a, gt, ref) <==> Verdict(t, a, gt, ref) == Some(false)
  {
    FieldIsRightExactly(t, Value(a, ref), Value(gt, ref), ref.field);
  }

  lemma {:induction false} FailuresAreWrong(t: Text, a: Invoice, gt: Invoice, refs: seq<Ref>)
    requires Lawful(t)
    ensures Failures(Checks(t, a, gt, refs)) == WrongOnes(t, a, gt, refs)
  {
    if refs == [] {
    } else {
      var init, last := refs[..|refs| - 1], refs[|refs| - 1];
      FailuresAreWrong(t, a, gt, init);
      WrongIsFalse(t, a, gt, last);
      R.FailuresOfOneMore(t, a, gt, init, last);
      assert refs == init + [last];
    }
  }

  /** evaluate_single reports a mismatch for every field that the label has and the aligned prediction
      has wrong, once and in order, and no other. */
  lemma MismatchesExactly(t: Text, pred: Invoice, gt: Invoice)
    requires Lawful(t)
    ensures Failures(Evaluated(t, pred, gt))
         == WrongOnes(t, AlignedInvoice(t, pred, gt), gt, AllRefs(|gt.products|))
  {
    EvaluatedOnLabels(t, pred, gt);
    FailuresAreWrong(t, AlignedInvoice(t, pred, gt), gt, AllRefs(|gt.products|));
  }

  // ---- What the alignment scores ----

  /** Both texts are there, with the same digits but for zeros in front. */
  ghost predicate SameAmount(t: Text, x: string, y: string) {
    x != "" && y != "" && SameButZeros(t.Digits(x), t.Digits(y))
  }

  ghost predicate SameName(t: Text, x: string, y: string) {
    t.lower(t.strip(y)) != "" && t.lower(t.strip(x)) == t.lower(t.strip(y))
  }

  ghost function Points(right: bool, points: nat): nat {
    if right then points else 0
  }

  /** Two points for the unit price, two for the total, three for the name. */
  lemma ScoreExactly(t: Text, gt: Record, pred: Record)
    ensures Score(t, gt, pred) ==
      Points(SameAmount(t, Get(pred, PRODUCT_UNIT_PRICE), Get(gt, PRODUCT_UNIT_PRICE)), 2)
      + Points(SameAmount(t, Get(pred, PRODUCT_TOTAL_MONEY), Get(gt, PRODUCT_TOTAL_MONEY)), 2)
      + Points(SameName(t, Get(pred, PRODUCT_NAME), Get(gt, PRODUCT_NAME)), 3)
  {
    AmountScores(t, Get(pred, PRODUCT_UNIT_PRICE), Get(gt, PRODUCT_UNIT_PRICE));
    AmountScores(t, Get(pred, PRODUCT_TOTAL_MONEY), Get(gt, PRODUCT_TOTAL_MONEY));
  }

  lemma AmountScores(t: Text, x: string, y: string)
    ensures t.Money(y) != "" && t.Money(x) == t.Money(y) <==> SameAmount(t, x, y)
  {
    if x != "" && y != "" {
      EqualMoneyIsSameButZeros(t, x, y);
    }
  }
}
