/** What evaluate_single reports: per field, the verdicts on the label's rows in their order. */
module Results {
  import opened Common
  import opened Evaluation

  /** The verdicts of `checks`, field by field, in order. */
  lemma {:induction false} SameVerdictsSameResults(t: Text, a: Invoice, b: Invoice, gt: Invoice, refs: seq<Ref>)
    requires forall ref :: ref in refs ==> Verdict(t, a, gt, ref) == Verdict(t, b, gt, ref)
    ensures |Checks(t, a, gt, refs)| == |Checks(t, b, gt, refs)|
    ensures Collected(Checks(t, a, gt, refs)) == Collected(Checks(t, b, gt, refs))
  {
    if refs == [] {
    } else {
      var init, last := refs[..|refs| - 1], refs[|refs| - 1];
      SameVerdictsSameResults(t, a, b, gt, init);
      var x, y := Checks(t, a, gt, init), Checks(t, b, gt, init);
      var v := Verdict(t, a, gt, last);
      assert v == Verdict(t, b, gt, last);
      if v.Some? {
        CollectedSnoc(x, Check(last, v.value, t.strip(Value(gt, last)), t.strip(Value(a, last))));
        CollectedSnoc(y, Check(last, v.value, t.strip(Value(gt, last)), t.strip(Value(b, last))));
      }
    }
  }

  lemma CollectedSnoc(checks: seq<Check>, c: Check)
    ensures var before := Collected(checks);
      Collected(checks + [c])
      == before[c.ref.field := (if c.ref.field in before then before[c.ref.field] else []) + [c.correct]]
  {
    assert (checks + [c])[..|checks|] == checks;
  }

  /** Rows that no label row stands beside are compared with nothing. */
  lemma {:induction false} UnlabelledRowsUnchecked(t: Text, a: Invoice, gt: Invoice, refs: seq<Ref>, fields: seq<Ref>)
    requires forall ref :: ref in fields ==> Value(gt, ref) == ""
    ensures Checks(t, a, gt, refs + fields) == Checks(t, a, gt, refs)
  {
    if fields == [] {
      assert refs + fields == refs;
    } else {
      var last := |fields| - 1;
      UnlabelledRowsUnchecked(t, a, gt, refs, fields[..last]);
      assert fields[last] in fields;
      assert (refs + fields)[..|refs + fields| - 1] == refs + fields[..last];
    }
  }

  /** What `n` rows have compared that `m` rows have not. */
  ghost function Beyond(n: nat, m: nat): (r: seq<Ref>)
    requires m <= n
    ensures forall ref :: ref in r ==> ref.Product? && ref.i >= m
    ensures AllRefs(n) == AllRefs(m) + r
  {
    if n == m then [] else Beyond(n - 1, m) + Refs(PRODUCT_FIELDS, Some(n - 1))
  }

  lemma OnlyLabelledRows(t: Text, a: Invoice, gt: Invoice, n: nat)
    requires n >= |gt.products|
    ensures Checks(t, a, gt, AllRefs(n)) == Checks(t, a, gt, AllRefs(|gt.products|))
  {
    UnlabelledRowsUnchecked(t, a, gt, AllRefs(|gt.products|), Beyond(n, |gt.products|));
  }

  lemma EvaluatedOnLabels(t: Text, pred: Invoice, gt: Invoice)
    ensures Evaluated(t, pred, gt) == Checks(t, AlignedInvoice(t, pred, gt), gt, AllRefs(|gt.products|))
  {
    OnlyLabelledRows(t, AlignedInvoice(t, pred, gt), gt, Max(|gt.products|, |AlignedInvoice(t, pred, gt).products|));
  }

  // ---- The results of one field, row by row ----

  function Reported(v: Option<bool>): seq<bool> {
    if v.None? then [] else [v.value]
  }

  function ResultsOf(verdict: Ref -> Option<bool>, refs: seq<Ref>, f: Field): seq<bool> {
    if refs == [] then []
    else
      var init, last := refs[..|refs| - 1], refs[|refs| - 1];
      ResultsOf(verdict, init, f) + if last.field == f then Reported(verdict(last)) else []
  }

  function RowResults(verdict: Ref -> Option<bool>, n: nat, f: Field): seq<bool> {
    if n == 0 then [] else RowResults(verdict, n - 1, f) + Reported(verdict(Product(n - 1, f)))
  }

  function At(results: map<Field, seq<bool>>, f: Field): seq<bool> {
    if f in results then results[f] else []
  }

  lemma CollectedOneMore(t: Text, a: Invoice, gt: Invoice, refs: seq<Ref>, ref: Ref, f: Field)
    ensures At(Collected(Checks(t, a, gt, refs + [ref])), f)
      == At(Collected(Checks(t, a, gt, refs)), f) + if ref.field == f then Reported(Verdict(t, a, gt, ref)) else []
  {
    assert (refs + [ref])[..|refs|] == refs;
    var v := Verdict(t, a, gt, ref);
    if v.Some? {
      CollectedSnoc(Checks(t, a, gt, refs), Check(ref, v.value, t.strip(Value(gt, ref)), t.strip(Value(a, ref))));
    }
  }

  lemma {:induction false} CollectedResults(t: Text, a: Invoice, gt: Invoice, verdict: Ref -> Option<bool>,
                                            refs: seq<Ref>, f: Field)
    requires forall ref :: verdict(ref) == Verdict(t, a, gt, ref)
    ensures At(Collected(Checks(t, a, gt, refs)), f) == ResultsOf(verdict, refs, f)
  {
    if refs == [] {
    } else {
      var init, last := refs[..|refs| - 1], refs[|refs| - 1];
      CollectedResults(t, a, gt, verdict, init, f);
      CollectedOneMore(t, a, gt, init, last, f);
      assert refs == init + [last];
      ResultsSnoc(verdict, init, last, f);
    }
  }

  lemma ResultsSnoc(verdict: Ref -> Option<bool>, refs: seq<Ref>, ref: Ref, f: Field)
    ensures ResultsOf(verdict, refs + [ref], f)
         == ResultsOf(verdict, refs, f) + if ref.field == f then Reported(verdict(ref)) else []
  {
    assert (refs + [ref])[..|refs|] == refs;
  }

  lemma {:induction false} ResultsAppend(verdict: Ref -> Option<bool>, a: seq<Ref>, b: seq<Ref>, f: Field)
    ensures ResultsOf(verdict, a + b, f) == ResultsOf(verdict, a, f) + ResultsOf(verdict, b, f)
  {
    if b == [] {
      assert a + b == a;
    } else {
      var init, last := b[..|b| - 1], b[|b| - 1];
      ResultsAppend(verdict, a, init, f);
      assert a + b == a + init + [last];
      ResultsSnoc(verdict, a + init, last, f);
    }
  }

  lemma {:induction false} OtherFields(verdict: Ref -> Option<bool>, refs: seq<Ref>, f: Field)
    requires forall ref :: ref in refs ==> ref.field != f
    ensures ResultsOf(verdict, refs, f) == []
  {
    if refs == [] {
    } else {
      assert refs[|refs| - 1] in refs;
      OtherFields(verdict, refs[..|refs| - 1], f);
    }
  }

  lemma OneField(verdict: Ref -> Option<bool>, before: seq<Ref>, ref: Ref, after: seq<Ref>)
    requires forall r :: r in before || r in after ==> r.field != ref.field
    ensures ResultsOf(verdict, before + [ref] + after, ref.field) == Reported(verdict(ref))
  {
    OtherFields(verdict, before, ref.field);
    OtherFields(verdict, after, ref.field);
    ResultsSnoc(verdict, before, ref, ref.field);
    ResultsAppend(verdict, before + [ref], after, ref.field);
  }

  /** Of one pass over a row, the verdict on `f` alone counts for `f`. */
  lemma OnePass(verdict: Ref -> Option<bool>, i: nat, f: Field, k: nat)
    requires k < |PRODUCT_FIELDS| && PRODUCT_FIELDS[k] == f
    ensures ResultsOf(verdict, Refs(PRODUCT_FIELDS, Some(i)), f) == Reported(verdict(Product(i, f)))
  {
    var row := Refs(PRODUCT_FIELDS, Some(i));
    var before, after := row[..k], row[k + 1..];
    forall r | r in before || r in after ensures r.field != f {
    }
    OneField(verdict, before, Product(i, f), after);
    assert row[k] == Product(i, f);
    assert row == row[..k] + [row[k]] + row[k + 1..];
  }

  /** results[f] is the verdicts of the label rows that say something about `f`, in their order. */
  lemma {:induction false} ResultsByRow(verdict: Ref -> Option<bool>, n: nat, f: Field)
    requires f in PRODUCT_FIELDS
    ensures ResultsOf(verdict, AllRefs(n), f) == RowResults(verdict, n, f)
  {
    if n == 0 {
      OtherFields(verdict, AllRefs(0), f);
    } else {
      ResultsByRow(verdict, n - 1, f);
      var k :| 0 <= k < |PRODUCT_FIELDS| && PRODUCT_FIELDS[k] == f;
      OnePass(verdict, n - 1, f, k);
      ResultsAppend(verdict, AllRefs(n - 1), Refs(PRODUCT_FIELDS, Some(n - 1)), f);
    }
  }

  lemma EvaluatedByRow(t: Text, pred: Invoice, gt: Invoice, f: Field)
    requires f in PRODUCT_FIELDS
    ensures At(Collected(Evaluated(t, pred, gt)), f)
         == RowResults(ref => Verdict(t, AlignedInvoice(t, pred, gt), gt, ref), |gt.products|, f)
  {
    var a := AlignedInvoice(t, pred, gt);
    EvaluatedOnLabels(t, pred, gt);
    var verdict := (ref: Ref) => Verdict(t, a, gt, ref);
    CollectedResults(t, a, gt, verdict, AllRefs(|gt.products|), f);
    ResultsByRow(verdict, |gt.products|, f);
  }

  /** One verdict that differs shows, if the label is silent in the same places. */
  lemma {:induction false} OneVerdictShows(v: Ref -> Option<bool>, w: Ref -> Option<bool>, n: nat, f: Field, k: nat)
    requires k < n && v(Product(k, f)) != w(Product(k, f))
    requires forall i :: 0 <= i < n ==> (v(Product(i, f)).None? <==> w(Product(i, f)).None?)
    ensures |RowResults(v, n, f)| == |RowResults(w, n, f)| && RowResults(v, n, f) != RowResults(w, n, f)
  {
    SameLength(v, w, n - 1, f);
    var x, y := RowResults(v, n - 1, f), RowResults(w, n - 1, f);
    var a, b := Reported(v(Product(n - 1, f))), Reported(w(Product(n - 1, f)));
    if k < n - 1 {
      OneVerdictShows(v, w, n - 1, f, k);
      assert (x + a)[..|x|] == x && (y + b)[..|y|] == y;
    } else {
      assert (x + a)[|x|] == a[0] && (y + b)[|y|] == b[0];
    }
  }

  lemma {:induction false} SameLength(v: Ref -> Option<bool>, w: Ref -> Option<bool>, n: nat, f: Field)
    requires forall i :: 0 <= i < n ==> (v(Product(i, f)).None? <==> w(Product(i, f)).None?)
    ensures |RowResults(v, n, f)| == |RowResults(w, n, f)|
  {
    if n == 0 {
    } else {
      SameLength(v, w, n - 1, f);
    }
  }

  /** Whether there is a verdict is for the label to say. */
  lemma SilenceIsTheLabels(t: Text, a: Invoice, b: Invoice, gt: Invoice, ref: Ref)
    ensures Verdict(t, a, gt, ref).None? <==> Verdict(t, b, gt, ref).None?
  {
  }

  /** Another verdict on one field of one label row is another result. */
  lemma OtherVerdictOtherResult(t: Text, p: Invoice, q: Invoice, gt: Invoice, k: nat, f: Field)
    requires f in PRODUCT_FIELDS && k < |gt.products|
    requires var ref := Product(k, f);
      Verdict(t, AlignedInvoice(t, p, gt), gt, ref) != Verdict(t, AlignedInvoice(t, q, gt), gt, ref)
    ensures Collected(Evaluated(t, p, gt)) != Collected(Evaluated(t, q, gt))
  {
    var a, b := AlignedInvoice(t, p, gt), AlignedInvoice(t, q, gt);
    var v, w := (ref: Ref) => Verdict(t, a, gt, ref), (ref: Ref) => Verdict(t, b, gt, ref);
    EvaluatedByRow(t, p, gt, f);
    EvaluatedByRow(t, q, gt, f);
    forall i | 0 <= i < |gt.products| ensures v(Product(i, f)).None? <==> w(Product(i, f)).None? {
      SilenceIsTheLabels(t, a, b, gt, Product(i, f));
    }
    OneVerdictShows(v, w, |gt.products|, f, k);
  }
}
