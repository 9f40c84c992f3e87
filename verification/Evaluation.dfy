/** The scorer of scripts/run_eval.py: field comparison, greedy product alignment, and the
    pred skeleton that is scored in place of the prediction. */
module Evaluation {
  import opened Common

  datatype Field =
    | NAME | TYPE | DATE | TIME | POS_ID | RECEIPT_NUMBER | CASHIER | TOTAL_MONEY | BARCODE
    | PRODUCT_ID | PRODUCT_NAME | PRODUCT_UNIT_PRICE | PRODUCT_QUANTITY | PRODUCT_TOTAL_MONEY

  type Record = map<Field, string>

  datatype Invoice = Invoice(fields: Record, products: seq<Record>)

  const BASE_FIELDS: seq<Field> :=
    [NAME, TYPE, DATE, TIME, POS_ID, RECEIPT_NUMBER, CASHIER, TOTAL_MONEY, BARCODE]

  const PRODUCT_FIELDS: seq<Field> :=
    [PRODUCT_ID, PRODUCT_NAME, PRODUCT_UNIT_PRICE, PRODUCT_QUANTITY, PRODUCT_TOTAL_MONEY]

  /** record.get(field, "") */
  function Get(r: Record, f: Field): string {
    if f in r then r[f] else ""
  }

  // ---- Text ----

  /** Python's string functions, and the two library scores, as far as they matter. */
  datatype Text = Text(
    strip: string -> string,
    lower: string -> string,
    isDigit: char -> bool,
    quantity: string -> string,
    ratio: (string, string) -> real)
  {
    /** str(x).strip().lower() */
    function Clean(x: string): string {
      lower(strip(x))
    }

    /** re.sub(r"[^\d]", "", x) */
    function Digits(x: string): string {
      if x == "" then "" else (if isDigit(x[0]) then [x[0]] else "") + Digits(x[1..])
    }

    /** _normalize_money_for_compare */
    function Money(x: string): string {
      if x == "" then "" else
        var v := DropZeros(Digits(x));
        if v == "" then "0" else v
    }
  }

  function DropZeros(x: string): string {
    if x != "" && x[0] == '0' then DropZeros(x[1..]) else x
  }

  function DropStars(x: string): string {
    if x == "" then "" else (if x[0] == '*' then "" else [x[0]]) + DropStars(x[1..])
  }

  /** Stripping and lower-casing are idempotent enough, touch no digits, and empty no
      text that is not blank; a text is similar to itself. */
  ghost predicate Lawful(t: Text) {
    && (forall x :: t.strip(t.strip(x)) == t.strip(x))
    && t.strip("") == ""
    && (forall x :: t.lower(x) == "" <==> x == "")
    && (forall x :: t.Digits(t.strip(x)) == t.Digits(x))
    && (forall x :: t.Digits(t.lower(x)) == t.Digits(x))
    && (forall x :: t.ratio(x, x) == 1.0)
  }

  predicate Blank(t: Text, x: string) {
    x != "" && t.strip(x) == ""
  }

  predicate IsMoney(f: Field) {
    f == TOTAL_MONEY || f == PRODUCT_UNIT_PRICE || f == PRODUCT_TOTAL_MONEY
  }

  /** compare_field: None if the label says nothing. */
  function Compare(t: Text, pred: string, gt: string, f: Field): Option<bool> {
    if gt == "" then None
    else if pred == "" then Some(false)
    else
      var p, g := t.Clean(pred), t.Clean(gt);
      Some(
        if IsMoney(f) then t.Money(p) == t.Money(g)
        else if f == BARCODE then DropStars(p) == DropStars(g)
        else if f == PRODUCT_QUANTITY then t.quantity(p) == t.quantity(g)
        else if f == PRODUCT_NAME then t.ratio(p, g) > 0.95
        else p == g)
  }

  // ---- Greedy alignment ----

  function Score(t: Text, gt: Record, pred: Record): nat {
    var price := t.Money(Get(gt, PRODUCT_UNIT_PRICE));
    var total := t.Money(Get(gt, PRODUCT_TOTAL_MONEY));
    var name := t.Clean(Get(gt, PRODUCT_NAME));
    (if price != "" && t.Money(Get(pred, PRODUCT_UNIT_PRICE)) == price then 2 else 0)
    + (if total != "" && t.Money(Get(pred, PRODUCT_TOTAL_MONEY)) == total then 2 else 0)
    + (if name != "" && t.Clean(Get(pred, PRODUCT_NAME)) == name then 3 else 0)
  }

  /** The inner loop over the first `n` predicted rows: index and score of the best. */
  function Best(t: Text, gt: Record, preds: seq<Record>, used: set<int>, n: nat): (b: (int, int))
    requires n <= |preds|
    ensures -1 <= b.0 < n && (b.0 == -1 <==> b.1 == -1) && b.1 >= -1
  {
    if n == 0 then (-1, -1)
    else
      var b := Best(t, gt, preds, used, n - 1);
      if n - 1 !in used && Score(t, gt, preds[n - 1]) > b.1 then (n - 1, Score(t, gt, preds[n - 1])) else b
  }

  /** What one label row is aligned with: a predicted row, or -1. */
  function Choice(t: Text, gt: Record, preds: seq<Record>, used: set<int>): (c: int)
    ensures -1 <= c < |preds|
  {
    var b := Best(t, gt, preds, used, |preds|);
    if b.0 != -1 && b.1 > 0 then b.0 else -1
  }

  function Taken(choices: seq<int>): set<int> {
    set i | 0 <= i < |choices| && choices[i] != -1 :: choices[i]
  }

  /** The choices for the first `n` label rows. */
  function Choices(t: Text, gts: seq<Record>, preds: seq<Record>, n: nat): (cs: seq<int>)
    requires n <= |gts|
    ensures |cs| == n
    ensures forall i :: 0 <= i < n ==> -1 <= cs[i] < |preds|
  {
    if n == 0 then []
    else
      var cs := Choices(t, gts, preds, n - 1);
      cs + [Choice(t, gts[n - 1], preds, Taken(cs))]
  }

  function Row(preds: seq<Record>, c: int): Record
    requires -1 <= c < |preds|
  {
    if c == -1 then map[] else preds[c]
  }

  function Rows(preds: seq<Record>, choices: seq<int>): (r: seq<Record>)
    requires forall i :: 0 <= i < |choices| ==> -1 <= choices[i] < |preds|
    ensures |r| == |choices| && forall i :: 0 <= i < |r| ==> r[i] == Row(preds, choices[i])
  {
    seq(|choices|, i requires 0 <= i < |choices| => Row(preds, choices[i]))
  }

  /** The predicted rows among the first `n` that no label row took. */
  function Leftover(preds: seq<Record>, used: set<int>, n: nat): seq<Record>
    requires n <= |preds|
  {
    if n == 0 then []
    else Leftover(preds, used, n - 1) + if n - 1 in used then [] else [preds[n - 1]]
  }

  function Aligned(t: Text, gts: seq<Record>, preds: seq<Record>): seq<Record> {
    var cs := Choices(t, gts, preds, |gts|);
    Rows(preds, cs) + Leftover(preds, Taken(cs), |preds|)
  }

  /** The inner loop. */
  method FindBest(t: Text, gt: Record, preds: seq<Record>, used: set<int>) returns (bestIdx: int, bestScore: int)
    ensures (bestIdx, bestScore) == Best(t, gt, preds, used, |preds|)
  {
    bestIdx, bestScore := -1, -1;
    for pi := 0 to |preds|
      invariant (bestIdx, bestScore) == Best(t, gt, preds, used, pi)
    {
      if pi in used {
        continue;
      }
      var score := Score(t, gt, preds[pi]);
      if score > bestScore {
        bestScore, bestIdx := score, pi;
      }
    }
  }

  method GreedyAlign(t: Text, gts: seq<Record>, preds: seq<Record>) returns (aligned: seq<Record>)
    ensures aligned == Aligned(t, gts, preds)
  {
    aligned := [];
    var used: set<int> := {};
    for g := 0 to |gts|
      invariant used == Taken(Choices(t, gts, preds, g))
      invariant aligned == Rows(preds, Choices(t, gts, preds, g))
    {
      ghost var cs := Choices(t, gts, preds, g);
      var bestIdx, bestScore := FindBest(t, gts[g], preds, used);
      TakenSnoc(cs, Choice(t, gts[g], preds, used));
      RowsSnoc(preds, cs, Choice(t, gts[g], preds, used));
      if bestIdx != -1 && bestScore > 0 {
        aligned := aligned + [preds[bestIdx]];
        used := used + {bestIdx};
      } else {
        aligned := aligned + [map[]];
      }
    }
    for pi := 0 to |preds|
      invariant aligned == Rows(preds, Choices(t, gts, preds, |gts|)) + Leftover(preds, used, pi)
    {
      if pi !in used {
        aligned := aligned + [preds[pi]];
      }
    }
  }

  lemma RowsSnoc(preds: seq<Record>, cs: seq<int>, c: int)
    requires forall i :: 0 <= i < |cs| ==> -1 <= cs[i] < |preds|
    requires -1 <= c < |preds|
    ensures Rows(preds, cs + [c]) == Rows(preds, cs) + [Row(preds, c)]
  {
  }

  lemma TakenSnoc(cs: seq<int>, c: int)
    ensures Taken(cs + [c]) == if c == -1 then Taken(cs) else Taken(cs) + {c}
  {
    forall x | x in Taken(cs) ensures x in Taken(cs + [c]) {
      var i :| 0 <= i < |cs| && cs[i] != -1 && cs[i] == x;
      assert (cs + [c])[i] == x;
    }
    if c != -1 {
      assert (cs + [c])[|cs|] == c;
    }
  }

  // ---- Scoring ----

  /** A compared field: of the invoice, or of product row `i`. */
  datatype Ref = Base(field: Field) | Product(i: nat, field: Field)

  function Value(inv: Invoice, ref: Ref): string {
    match ref
    case Base(f) => Get(inv.fields, f)
    case Product(i, f) => if i < |inv.products| then Get(inv.products[i], f) else ""
  }

  /** One comparison that counts, and what a mismatch would report. */
  datatype Check = Check(ref: Ref, correct: bool, expected: string, predicted: string)

  function Refs(fields: seq<Field>, row: Option<nat>): (r: seq<Ref>)
    ensures |r| == |fields|
    ensures forall i :: 0 <= i < |r| ==> r[i] == if row.None? then Base(fields[i]) else Product(row.value, fields[i])
  {
    seq(|fields|, i requires 0 <= i < |fields| =>
      if row.None? then Base(fields[i]) else Product(row.value, fields[i]))
  }

  /** Everything that is compared, in order, with `n` product rows. */
  function AllRefs(n: nat): seq<Ref> {
    if n == 0 then Refs(BASE_FIELDS, None) else AllRefs(n - 1) + Refs(PRODUCT_FIELDS, Some(n - 1))
  }

  /** The verdict on `pred`, its products already aligned, in one place. */
  function Verdict(t: Text, pred: Invoice, gt: Invoice, ref: Ref): Option<bool> {
    Compare(t, Value(pred, ref), Value(gt, ref), ref.field)
  }

  function Checks(t: Text, pred: Invoice, gt: Invoice, refs: seq<Ref>): seq<Check> {
    if refs == [] then []
    else
      var last := |refs| - 1;
      var before, v := Checks(t, pred, gt, refs[..last]), Verdict(t, pred, gt, refs[last]);
      if v.None? then before
      else before + [Check(refs[last], v.value, t.strip(Value(gt, refs[last])), t.strip(Value(pred, refs[last])))]
  }

  /** results: the verdicts of each field in the order they were reached. */
  function Collected(checks: seq<Check>): map<Field, seq<bool>> {
    if checks == [] then map[]
    else
      var last := |checks| - 1;
      var before, c := Collected(checks[..last]), checks[last];
      before[c.ref.field := (if c.ref.field in before then before[c.ref.field] else []) + [c.correct]]
  }

  /** mismatches: the checks that failed. */
  function Failures(checks: seq<Check>): seq<Check> {
    if checks == [] then []
    else
      var last := |checks| - 1;
      Failures(checks[..last]) + if checks[last].correct then [] else [checks[last]]
  }

  function AlignedInvoice(t: Text, pred: Invoice, gt: Invoice): Invoice {
    Invoice(pred.fields, Aligned(t, gt.products, pred.products))
  }

  function Max(a: nat, b: nat): nat {
    if a >= b then a else b
  }

  /** All the checks of evaluate_single. */
  function Evaluated(t: Text, pred: Invoice, gt: Invoice): seq<Check> {
    var a := AlignedInvoice(t, pred, gt);
    Checks(t, a, gt, AllRefs(Max(|gt.products|, |a.products|)))
  }

  /** One comparison of the two loops, and where its outcome goes. */
  method CheckField(t: Text, pred: Invoice, gt: Invoice, ref: Ref,
                    results: map<Field, seq<bool>>, mismatches: seq<Check>, ghost refs: seq<Ref>)
    returns (results': map<Field, seq<bool>>, mismatches': seq<Check>)
    requires results == Collected(Checks(t, pred, gt, refs)) && mismatches == Failures(Checks(t, pred, gt, refs))
    ensures results' == Collected(Checks(t, pred, gt, refs + [ref]))
    ensures mismatches' == Failures(Checks(t, pred, gt, refs + [ref]))
  {
    results', mismatches' := results, mismatches;
    var val := Compare(t, Value(pred, ref), Value(gt, ref), ref.field);
    ghost var before := Checks(t, pred, gt, refs);
    assert (refs + [ref])[..|refs|] == refs;
    if val.Some? {
      var check := Check(ref, val.value, t.strip(Value(gt, ref)), t.strip(Value(pred, ref)));
      results' := results[ref.field := (if ref.field in results then results[ref.field] else []) + [val.value]];
      if !val.value {
        mismatches' := mismatches + [check];
      }
      assert (before + [check])[..|before|] == before;
    }
  }

  /** One of the two loops over fields: the invoice's, or those of one product row. */
  method CheckFields(t: Text, pred: Invoice, gt: Invoice, fields: seq<Ref>,
                     results: map<Field, seq<bool>>, mismatches: seq<Check>, ghost refs: seq<Ref>)
    returns (results': map<Field, seq<bool>>, mismatches': seq<Check>)
    requires results == Collected(Checks(t, pred, gt, refs)) && mismatches == Failures(Checks(t, pred, gt, refs))
    ensures results' == Collected(Checks(t, pred, gt, refs + fields))
    ensures mismatches' == Failures(Checks(t, pred, gt, refs + fields))
  {
    results', mismatches' := results, mismatches;
    ghost var done := refs;
    for f := 0 to |fields|
      invariant done == refs + fields[..f]
      invariant results' == Collected(Checks(t, pred, gt, done)) && mismatches' == Failures(Checks(t, pred, gt, done))
    {
      results', mismatches' := CheckField(t, pred, gt, fields[f], results', mismatches', done);
      SliceSnoc(refs, fields, f);
      done := done + [fields[f]];
    }
    assert fields[..|fields|] == fields;
  }

  lemma SliceSnoc<T>(a: seq<T>, b: seq<T>, n: nat)
    requires n < |b|
    ensures a + b[..n] + [b[n]] == a + b[..n + 1]
  {
  }

  /** evaluate_single, loop by loop. */
  method EvaluateSingle(t: Text, pred: Invoice, gt: Invoice)
    returns (results: map<Field, seq<bool>>, mismatches: seq<Check>)
    ensures results == Collected(Evaluated(t, pred, gt))
    ensures mismatches == Failures(Evaluated(t, pred, gt))
  {
    var aligned := GreedyAlign(t, gt.products, pred.products);
    var a := Invoice(pred.fields, aligned);
    results, mismatches := CheckFields(t, a, gt, Refs(BASE_FIELDS, None), map[], [], []);
    assert [] + Refs(BASE_FIELDS, None) == AllRefs(0);
    var n := Max(|gt.products|, |aligned|);
    for i := 0 to n
      invariant results == Collected(Checks(t, a, gt, AllRefs(i)))
      invariant mismatches == Failures(Checks(t, a, gt, AllRefs(i)))
    {
      results, mismatches := CheckFields(t, a, gt, Refs(PRODUCT_FIELDS, Some(i)), results, mismatches, AllRefs(i));
    }
  }

  // ---- The skeleton ----

  /** The label with one field replaced, product rows being added up to the one named. */
  function Put(inv: Invoice, ref: Ref, text: string): Invoice
    decreases match ref case Base(_) => 0 case Product(i, _) => if i < |inv.products| then 0 else i + 1 - |inv.products|
  {
    match ref
    case Base(f) => inv.(fields := inv.fields[f := text])
    case Product(i, f) =>
      if i < |inv.products| then inv.(products := inv.products[i := inv.products[i][f := text]])
      else Put(inv.(products := inv.products + [map[]]), ref, text)
  }

  function Skeleton(mismatches: seq<Check>, gt: Invoice): Invoice {
    if mismatches == [] then gt
    else
      var last := |mismatches| - 1;
      Put(Skeleton(mismatches[..last], gt), mismatches[last].ref, mismatches[last].predicted)
  }

  method BuildPredSkeleton(mismatches: seq<Check>, gt: Invoice) returns (pred: Invoice)
    ensures pred == Skeleton(mismatches, gt)
  {
    pred := gt;
    for n := 0 to |mismatches|
      invariant pred == Skeleton(mismatches[..n], gt)
    {
      var m := mismatches[n];
      ghost var before := pred;
      match m.ref {
        case Base(f) => pred := pred.(fields := pred.fields[f := m.predicted]);
        case Product(i, f) =>
          while |pred.products| <= i
            invariant Put(pred, m.ref, m.predicted) == Put(before, m.ref, m.predicted)
            decreases i + 1 - |pred.products|
          {
            pred := pred.(products := pred.products + [map[]]);
          }
          pred := pred.(products := pred.products[i := pred.products[i][f := m.predicted]]);
      }
      assert mismatches[..n + 1][..n] == mismatches[..n];
    }
    assert mismatches[..|mismatches|] == mismatches;
  }
}
