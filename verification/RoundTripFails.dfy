/** Labels and predictions on which the round trip fails, or holds though rows move: its hypotheses
    are needed. None depends on what the text functions do beyond their laws. */
module RoundTripFails {
  import opened Common
  import opened Evaluation
  import opened Alignment
  import opened Results
  import opened RoundTrip

  // ---- Product rows ----

  function Line(name: string, price: string, total: string): Record {
    map[PRODUCT_NAME := name, PRODUCT_UNIT_PRICE := price, PRODUCT_TOTAL_MONEY := total]
  }

  /** What the alignment reads of a row of the skeleton. */
  ghost predicate Reads(s: Record, name: string, price: string, total: string) {
    && Get(s, PRODUCT_NAME) == name
    && Get(s, PRODUCT_UNIT_PRICE) == price
    && Get(s, PRODUCT_TOTAL_MONEY) == total
  }

  lemma MarkedReads(t: Text, pred: Record, gt: Record, s: Record)
    requires MarkedRow(t, pred, gt, s)
    ensures Reads(s, Marked(t, Get(pred, PRODUCT_NAME), Get(gt, PRODUCT_NAME), PRODUCT_NAME),
                  Marked(t, Get(pred, PRODUCT_UNIT_PRICE), Get(gt, PRODUCT_UNIT_PRICE), PRODUCT_UNIT_PRICE),
                  Marked(t, Get(pred, PRODUCT_TOTAL_MONEY), Get(gt, PRODUCT_TOTAL_MONEY), PRODUCT_TOTAL_MONEY))
  {
    ScoredFields();
  }

  lemma LineReads(t: Text, name: string, price: string, total: string, x: string, p: string, w: string, s: Record)
    requires MarkedRow(t, Line(name, price, total), Line(x, p, w), s)
    ensures Reads(s, Marked(t, name, x, PRODUCT_NAME), Marked(t, price, p, PRODUCT_UNIT_PRICE),
                  Marked(t, total, w, PRODUCT_TOTAL_MONEY))
  {
    MarkedReads(t, Line(name, price, total), Line(x, p, w), s);
  }

  lemma UnmatchedReads(t: Text, gt: Record, s: Record)
    requires Lawful(t) && MarkedRow(t, map[], gt, s)
    ensures Reads(s, "", "", "")
  {
    MarkedBlank(t, gt, s);
    ScoredFields();
  }

  /** Row `k` of the skeleton, given what label row `k` took in the first run. */
  lemma RowOfSkeleton(t: Text, pred: Invoice, gt: Invoice, cs: seq<int>, k: nat)
    requires k < |gt.products| && FirstChoices(t, pred, gt) == cs
    ensures MarkedRow(t, Row(pred.products, cs[k]), gt.products[k], Rebuilt(t, pred, gt).products[k])
  {
    RebuiltRows(t, pred, gt);
  }

  lemma LinePlain(t: Text, name: string, price: string, total: string)
    requires !Blank(t, price) && !Blank(t, total)
    ensures PricesPlain(t, Line(name, price, total))
  {
  }

  // ---- One row, two rows ----

  lemma OneChoice(t: Text, gts: seq<Record>, preds: seq<Record>)
    requires |gts| == |preds| == 1
    ensures Choices(t, gts, preds, 1) == [if Score(t, gts[0], preds[0]) == 0 then -1 else 0]
  {
    assert Choices(t, gts, preds, 0) == [] && Taken([]) == {};
    ChosenIsChoice(t, gts[0], preds, {}, if Score(t, gts[0], preds[0]) == 0 then -1 else 0);
  }

  lemma TwoChoices(t: Text, gts: seq<Record>, preds: seq<Record>, c0: int, c1: int)
    requires |gts| == 2
    requires Chosen(t, gts[0], preds, {}, c0) && Chosen(t, gts[1], preds, Taken([c0]), c1)
    ensures Choices(t, gts, preds, 2) == [c0, c1]
  {
    assert Choices(t, gts, preds, 0) == [] && Taken([]) == {};
    ChosenIsChoice(t, gts[0], preds, {}, c0);
    assert Choices(t, gts, preds, 1) == [c0];
    ChosenIsChoice(t, gts[1], preds, Taken([c0]), c1);
  }

  /** The better of two rows that score `a` and `b`, a row that is taken counting 0. */
  function Pick(a: nat, b: nat): int {
    if b > a then 1 else if a > 0 then 0 else -1
  }

  lemma PickIsChosen(t: Text, gt: Record, rows: seq<Record>, used: set<int>, a: nat, b: nat)
    requires |rows| == 2
    requires a == if 0 in used then 0 else Score(t, gt, rows[0])
    requires b == if 1 in used then 0 else Score(t, gt, rows[1])
    ensures Chosen(t, gt, rows, used, Pick(a, b))
  {
    forall k | 0 <= k < 2 && k !in used ensures Score(t, gt, rows[k]) == if k == 0 then a else b {
    }
  }

  lemma TwoPicks(t: Text, gts: seq<Record>, rows: seq<Record>, a: nat, b: nat, c: nat, d: nat)
    requires |gts| == |rows| == 2
    requires Score(t, gts[0], rows[0]) == a && Score(t, gts[0], rows[1]) == b
    requires Score(t, gts[1], rows[0]) == c && Score(t, gts[1], rows[1]) == d
    ensures var i := Pick(a, b);
      Choices(t, gts, rows, 2) == [i, Pick(if i == 0 then 0 else c, if i == 1 then 0 else d)]
  {
    var i := Pick(a, b);
    assert [i][0] == i;
    assert forall x :: x in Taken([i]) <==> x == i != -1;
    PickIsChosen(t, gts[0], rows, {}, a, b);
    PickIsChosen(t, gts[1], rows, Taken([i]), if i == 0 then 0 else c, if i == 1 then 0 else d);
    TwoChoices(t, gts, rows, i, Pick(if i == 0 then 0 else c, if i == 1 then 0 else d));
  }

  lemma OneRowReport(t: Text, pred: Invoice, gt: Invoice, f: Field, v: bool)
    requires |gt.products| == 1 && f in PRODUCT_FIELDS
    requires Verdict(t, AlignedInvoice(t, pred, gt), gt, Product(0, f)) == Some(v)
    ensures At(Collected(Evaluated(t, pred, gt)), f) == [v]
  {
    EvaluatedByRow(t, pred, gt, f);
    var verdict := (ref: Ref) => Verdict(t, AlignedInvoice(t, pred, gt), gt, ref);
    assert RowResults(verdict, 0, f) == [];
    assert RowResults(verdict, 1, f) == Reported(verdict(Product(0, f)));
  }

  lemma TwoRows(verdict: Ref -> Option<bool>, f: Field)
    ensures RowResults(verdict, 2, f) == Reported(verdict(Product(0, f))) + Reported(verdict(Product(1, f)))
  {
    assert RowResults(verdict, 0, f) == [];
    assert RowResults(verdict, 1, f) == Reported(verdict(Product(0, f)));
  }

  lemma TwoRowReport(t: Text, pred: Invoice, gt: Invoice, f: Field, v0: bool, v1: bool)
    requires |gt.products| == 2 && f in PRODUCT_FIELDS
    requires Verdict(t, AlignedInvoice(t, pred, gt), gt, Product(0, f)) == Some(v0)
    requires Verdict(t, AlignedInvoice(t, pred, gt), gt, Product(1, f)) == Some(v1)
    ensures At(Collected(Evaluated(t, pred, gt)), f) == [v0, v1]
  {
    EvaluatedByRow(t, pred, gt, f);
    TwoRows(ref => Verdict(t, AlignedInvoice(t, pred, gt), gt, ref), f);
  }

  // ---- Two label rows of one name ----

  /** A label that lists the product `x` at the prices `p` and `q`. */
  function Twice(x: string, p: string, q: string): Invoice {
    Invoice(map[], [Line(x, p, ""), Line(x, q, "")])
  }

  /** A prediction of one product `y` at the price `q`. */
  function Once(y: string, q: string): Invoice {
    Invoice(map[], [Line(y, q, "")])
  }

  /** `y` is another name than `x`, but near enough to count as right. */
  predicate Near(t: Text, y: string, x: string) {
    && t.Clean(x) != "" && y != "" && t.Clean(y) != t.Clean(x)
    && t.ratio(t.Clean(y), t.Clean(x)) > 0.95
  }

  predicate OtherPrices(t: Text, p: string, q: string) {
    p != "" && q != "" && !Blank(t, p) && !Blank(t, q) && t.Money(p) != t.Money(q)
  }

  lemma FirstRun(t: Text, x: string, y: string, p: string, q: string)
    requires Near(t, y, x) && OtherPrices(t, p, q)
    ensures FirstChoices(t, Once(y, q), Twice(x, p, q)) == [-1, 0]
  {
    var gts, preds := Twice(x, p, q).products, Once(y, q).products;
    assert Score(t, gts[0], preds[0]) == 0;
    assert Score(t, gts[1], preds[0]) == 2;
    assert Taken([-1]) == {};
    TwoChoices(t, gts, preds, -1, 0);
  }

  lemma PriceVerdicts(t: Text, p: string, q: string)
    requires Lawful(t) && OtherPrices(t, p, q)
    ensures Compare(t, "", p, PRODUCT_UNIT_PRICE) == Compare(t, "", q, PRODUCT_UNIT_PRICE) == Some(false)
    ensures Compare(t, q, p, PRODUCT_UNIT_PRICE) == Some(false)
    ensures Compare(t, q, q, PRODUCT_UNIT_PRICE) == Some(true)
  {
    MoneyOfClean(t, p);
    MoneyOfClean(t, q);
  }

  /** The report on the prices: one is right. */
  lemma FirstReport(t: Text, x: string, y: string, p: string, q: string)
    requires Lawful(t) && Near(t, y, x) && OtherPrices(t, p, q)
    ensures At(Collected(Evaluated(t, Once(y, q), Twice(x, p, q))), PRODUCT_UNIT_PRICE) == [false, true]
  {
    FirstRun(t, x, y, p, q);
    PriceVerdicts(t, p, q);
    VerdictOfRow(t, Once(y, q), Twice(x, p, q), 0, PRODUCT_UNIT_PRICE);
    VerdictOfRow(t, Once(y, q), Twice(x, p, q), 1, PRODUCT_UNIT_PRICE);
    ScoredFields();
    TwoRowReport(t, Once(y, q), Twice(x, p, q), PRODUCT_UNIT_PRICE, false, true);
  }

  lemma NearIsRight(t: Text, y: string, x: string)
    requires Lawful(t) && Near(t, y, x)
    ensures Compare(t, y, x, PRODUCT_NAME) == Some(true) && Marked(t, y, x, PRODUCT_NAME) == x
  {
    assert t.Clean("") == "";
  }

  lemma MatchedReads(t: Text, x: string, y: string, p: string, q: string, s: Record)
    requires Lawful(t) && Near(t, y, x) && OtherPrices(t, p, q)
    requires MarkedRow(t, Line(y, q, ""), Line(x, q, ""), s)
    ensures Reads(s, x, q, "")
  {
    PriceVerdicts(t, p, q);
    NearIsRight(t, y, x);
    LineReads(t, y, q, "", x, q, "", s);
  }

  lemma SkeletonOfTwice(t: Text, x: string, y: string, p: string, q: string)
    requires Lawful(t) && Near(t, y, x) && OtherPrices(t, p, q)
    ensures var ss := Rebuilt(t, Once(y, q), Twice(x, p, q)).products;
      |ss| == 2 && Reads(ss[0], "", "", "") && Reads(ss[1], x, q, "")
  {
    var pred, gt := Once(y, q), Twice(x, p, q);
    FirstRun(t, x, y, p, q);
    RowOfSkeleton(t, pred, gt, [-1, 0], 0);
    RowOfSkeleton(t, pred, gt, [-1, 0], 1);
    UnmatchedReads(t, Line(x, p, ""), Rebuilt(t, pred, gt).products[0]);
    MatchedReads(t, x, y, p, q, Rebuilt(t, pred, gt).products[1]);
  }

  lemma SkeletonScores(t: Text, x: string, p: string, blank: Record, other: Record, q: string)
    requires Lawful(t) && t.Clean(x) != "" && p != "" && Reads(blank, "", "", "") && Reads(other, x, q, "")
    ensures Score(t, Line(x, p, ""), blank) == 0
    ensures Score(t, Line(x, p, ""), other) == if t.Money(p) == t.Money(q) then 5 else 3
  {
    assert t.Clean("") == "";
  }

  lemma SecondReport(t: Text, x: string, p: string, q: string, s: Invoice)
    requires Lawful(t) && t.Clean(x) != "" && OtherPrices(t, p, q)
    requires |s.products| == 2 && Reads(s.products[0], "", "", "") && Reads(s.products[1], x, q, "")
    ensures At(Collected(Evaluated(t, s, Twice(x, p, q))), PRODUCT_UNIT_PRICE) == [false, false]
  {
    SkeletonScores(t, x, p, s.products[0], s.products[1], q);
    SkeletonScores(t, x, q, s.products[0], s.products[1], q);
    TwoPicks(t, Twice(x, p, q).products, s.products, 0, 3, 0, 5);
    PriceVerdicts(t, p, q);
    VerdictOfRow(t, s, Twice(x, p, q), 0, PRODUCT_UNIT_PRICE);
    VerdictOfRow(t, s, Twice(x, p, q), 1, PRODUCT_UNIT_PRICE);
    ScoredFields();
    TwoRowReport(t, s, Twice(x, p, q), PRODUCT_UNIT_PRICE, false, false);
  }

  lemma TwicePlain(t: Text, x: string, y: string, p: string, q: string)
    requires OtherPrices(t, p, q)
    ensures AllPlain(t, Twice(x, p, q).products) && AllPlain(t, Once(y, q).products)
  {
    LinePlain(t, x, p, "");
    LinePlain(t, x, q, "");
    LinePlain(t, y, q, "");
  }

  /** A label that lists one name at two prices loses one: where the prediction has another name near
      enough to count as right, and the second price, the report has one price right and the skeleton
      of the report none. With `difflib` two names of 21 characters that differ in one are near enough,
      as "BANH GAO ONE-ONE 150G" and "BANH GAO ONE-ONE 160G" are: their ratio is 40 / 42. */
  lemma RepeatedNamesBreakRoundTrip(t: Text, x: string, y: string, p: string, q: string)
    requires Lawful(t) && Near(t, y, x) && OtherPrices(t, p, q)
    ensures AllPlain(t, Twice(x, p, q).products) && AllPlain(t, Once(y, q).products)
    ensures At(Collected(Evaluated(t, Once(y, q), Twice(x, p, q))), PRODUCT_UNIT_PRICE) == [false, true]
    ensures At(Collected(Evaluated(t, Rebuilt(t, Once(y, q), Twice(x, p, q)), Twice(x, p, q))), PRODUCT_UNIT_PRICE)
         == [false, false]
  {
    TwicePlain(t, x, y, p, q);
    FirstReport(t, x, y, p, q);
    SkeletonOfTwice(t, x, y, p, q);
    SecondReport(t, x, p, q, Rebuilt(t, Once(y, q), Twice(x, p, q)));
  }

  // ---- A blank price ----

  /** `b` is blank text that the alignment takes for the price `z`, as " " for "0". */
  predicate BlankFor(t: Text, b: string, z: string) {
    Blank(t, b) && z != "" && !Blank(t, z) && t.Money(b) == t.Money(z)
  }

  lemma BlankVerdicts(t: Text, b: string, z: string)
    requires Lawful(t) && BlankFor(t, b, z)
    ensures Compare(t, b, z, PRODUCT_UNIT_PRICE) == Some(false) && Marked(t, b, z, PRODUCT_UNIT_PRICE) == ""
    ensures Compare(t, z, b, PRODUCT_UNIT_PRICE) == Compare(t, t.strip(z), b, PRODUCT_UNIT_PRICE) == Some(false)
  {
    assert t.Clean(b) == "" && t.Money("") == "";
    assert t.strip(t.strip(z)) == t.strip(z);
    assert t.Clean(z) != "" && t.Money(t.Clean(z)) != "";
  }

  /** The product `id` at the price `p`, without a name. */
  function Item(id: string, p: string): Invoice {
    Invoice(map[], [map[PRODUCT_ID := id, PRODUCT_UNIT_PRICE := p]])
  }

  lemma ItemChoice(t: Text, id: string, b: string, z: string)
    requires Lawful(t) && BlankFor(t, b, z)
    ensures FirstChoices(t, Item(id, b), Item(id, z)) == [0]
  {
    assert t.Clean("") == "";
    assert Score(t, Item(id, z).products[0], Item(id, b).products[0]) == 2;
    OneChoice(t, Item(id, z).products, Item(id, b).products);
  }

  lemma ItemSkeleton(t: Text, id: string, b: string, z: string)
    requires Lawful(t) && BlankFor(t, b, z)
    ensures Reads(Rebuilt(t, Item(id, b), Item(id, z)).products[0], "", "", "")
  {
    ItemChoice(t, id, b, z);
    BlankVerdicts(t, b, z);
    RowOfSkeleton(t, Item(id, b), Item(id, z), [0], 0);
    MarkedReads(t, Item(id, b).products[0], Item(id, z).products[0], Rebuilt(t, Item(id, b), Item(id, z)).products[0]);
  }

  lemma LostChoice(t: Text, id: string, z: string, s: Invoice)
    requires Lawful(t) && z != "" && |s.products| == 1 && Reads(s.products[0], "", "", "")
    ensures Own(t, Item(id, z).products, s.products, 0) == 0 && FirstChoices(t, s, Item(id, z)) == [-1]
  {
    assert t.Clean("") == "";
    OneChoice(t, Item(id, z).products, s.products);
  }

  lemma ProductIds()
    ensures PRODUCT_ID in PRODUCT_FIELDS
  {
    assert PRODUCT_FIELDS[0] == PRODUCT_ID;
  }

  lemma ItemPlain(t: Text, id: string, b: string, z: string)
    requires BlankFor(t, b, z)
    ensures AllPlain(t, Item(id, z).products) && NamesDistinguish(t, Item(id, z).products)
  {
  }

  /** The report on the product id, where the label row took row `c`. */
  lemma ItemReport(t: Text, id: string, z: string, p: Invoice, c: int)
    requires FirstChoices(t, p, Item(id, z)) == [c] && id != "" && -1 <= c < |p.products|
    requires c != -1 ==> Get(p.products[c], PRODUCT_ID) == id
    ensures At(Collected(Evaluated(t, p, Item(id, z))), PRODUCT_ID) == [c != -1]
  {
    ProductIds();
    VerdictOfRow(t, p, Item(id, z), 0, PRODUCT_ID);
    OneRowReport(t, p, Item(id, z), PRODUCT_ID, c != -1);
  }

  /** A blank price that the alignment takes for the price of the label is reported as no price at all:
      the row loses its partner, and with it a product id that was right. */
  lemma BlankPriceBreaksRoundTrip(t: Text, id: string, b: string, z: string)
    requires Lawful(t) && BlankFor(t, b, z) && id != ""
    ensures AllPlain(t, Item(id, z).products) && NamesDistinguish(t, Item(id, z).products)
    ensures At(Collected(Evaluated(t, Item(id, b), Item(id, z))), PRODUCT_ID) == [true]
    ensures At(Collected(Evaluated(t, Rebuilt(t, Item(id, b), Item(id, z)), Item(id, z))), PRODUCT_ID) == [false]
  {
    var s := Rebuilt(t, Item(id, b), Item(id, z));
    ItemPlain(t, id, b, z);
    ItemChoice(t, id, b, z);
    ItemSkeleton(t, id, b, z);
    LostChoice(t, id, z, s);
    ItemReport(t, id, z, Item(id, b), 0);
    ItemReport(t, id, z, s, -1);
  }

  lemma NothingElseRight(t: Text, b: string, z: string)
    requires Lawful(t) && BlankFor(t, b, z)
    ensures !SomethingRight(t, Item("", b).products[0], Item("", z).products[0])
  {
    BlankVerdicts(t, b, z);
  }

  lemma OneRowContent(t: Text, gts: seq<Record>, ss: seq<Record>)
    requires |gts| == |ss| == 1
    ensures Content(t, gts, ss, 0)
  {
  }

  lemma OneRowSettled(t: Text, pred: Invoice, gt: Invoice)
    requires |gt.products| == |pred.products| == 1 && FirstChoices(t, pred, gt) == [0]
    requires !SomethingRight(t, pred.products[0], gt.products[0])
    ensures Settled(t, pred, gt)
  {
    var ss := Rebuilt(t, pred, gt).products;
    OneRowContent(t, gt.products, ss);
    assert Settles(t, gt.products, pred.products, FirstChoices(t, pred, gt), ss, 0);
  }

  /** With nothing right in it, the row loses its partner just so, and all results are the same. */
  lemma LossWithoutTrace(t: Text, b: string, z: string)
    requires Lawful(t) && BlankFor(t, b, z)
    ensures FirstChoices(t, Item("", b), Item("", z)) == [0]
    ensures FirstChoices(t, Rebuilt(t, Item("", b), Item("", z)), Item("", z)) == [-1]
    ensures Collected(Evaluated(t, Rebuilt(t, Item("", b), Item("", z)), Item("", z)))
         == Collected(Evaluated(t, Item("", b), Item("", z)))
  {
    ItemChoice(t, "", b, z);
    ItemSkeleton(t, "", b, z);
    LostChoice(t, "", z, Rebuilt(t, Item("", b), Item("", z)));
    NothingElseRight(t, b, z);
    OneRowSettled(t, Item("", b), Item("", z));
    SettledScoresTheSame(t, Item("", b), Item("", z));
  }

  // ---- Rows that move without a trace ----

  predicate SameTextOn(t: Text, x: string, a: string, gt: string, f: Field) {
    Compare(t, x, gt, f) == Compare(t, a, gt, f)
  }

  /** Verdicts on a label line, which has no product id and no quantity. */
  lemma SameLine(t: Text, s: Record, n: string, p: string, w: string, a: Record, name: string, price: string,
                 total: string, gtName: string, gtPrice: string, gtTotal: string)
    requires Reads(s, n, p, w) && Reads(a, name, price, total)
    requires SameTextOn(t, n, name, gtName, PRODUCT_NAME) && SameTextOn(t, p, price, gtPrice, PRODUCT_UNIT_PRICE)
    requires SameTextOn(t, w, total, gtTotal, PRODUCT_TOTAL_MONEY)
    ensures SameVerdicts(t, s, a, Line(gtName, gtPrice, gtTotal))
  {
    forall f | f in PRODUCT_FIELDS ensures SameVerdictOn(t, s, a, Line(gtName, gtPrice, gtTotal), f) {
    }
  }

  lemma SameRowIf(t: Text, pred: Invoice, gt: Invoice, k: nat, c: int, i: int)
    requires k < |gt.products| && -1 <= c < |pred.products| && -1 <= i < |gt.products|
    requires FirstChoices(t, pred, gt)[k] == c && FirstChoices(t, Rebuilt(t, pred, gt), gt)[k] == i
    requires SameVerdicts(t, Row(Rebuilt(t, pred, gt).products, i), Row(pred.products, c), gt.products[k])
    ensures SameRow(t, pred, gt, k)
  {
  }

  /** Both runs given, the results are the same if the verdicts on both label rows are. */
  lemma TwoSameRows(t: Text, pred: Invoice, gt: Invoice, c0: int, c1: int, k0: int, k1: int)
    requires Lawful(t) && |gt.products| == 2 && -1 <= k0 < 2 && -1 <= k1 < 2
    requires -1 <= c0 < |pred.products| && -1 <= c1 < |pred.products|
    requires FirstChoices(t, pred, gt) == [c0, c1] && FirstChoices(t, Rebuilt(t, pred, gt), gt) == [k0, k1]
    requires SameVerdicts(t, Row(Rebuilt(t, pred, gt).products, k0), Row(pred.products, c0), gt.products[0])
    requires SameVerdicts(t, Row(Rebuilt(t, pred, gt).products, k1), Row(pred.products, c1), gt.products[1])
    ensures Collected(Evaluated(t, Rebuilt(t, pred, gt), gt)) == Collected(Evaluated(t, pred, gt))
  {
    SameRowIf(t, pred, gt, 0, c0, k0);
    SameRowIf(t, pred, gt, 1, c1, k1);
    SameResultsByRow(t, pred, gt);
  }

  /** `y` is another name than `x`, and not near it. */
  predicate Far(t: Text, y: string, x: string) {
    t.Clean(x) != "" && t.Clean(y) != "" && t.Clean(y) != t.Clean(x) && t.ratio(t.Clean(y), t.Clean(x)) <= 0.95
  }

  /** The product `x` at the price `z`, and the product `y`. */
  function Pair(x: string, z: string, y: string): Invoice {
    Invoice(map[], [Line(x, z, ""), Line(y, "", "")])
  }

  lemma PairFirstRun(t: Text, x: string, y: string, b: string, z: string)
    requires Lawful(t) && Far(t, y, x) && BlankFor(t, b, z)
    ensures FirstChoices(t, Pair(y, b, y), Pair(x, z, y)) == [0, 1]
  {
    var gts, preds := Pair(x, z, y).products, Pair(y, b, y).products;
    assert Score(t, gts[0], preds[0]) == 2 && Score(t, gts[0], preds[1]) == 0;
    assert Score(t, gts[1], preds[0]) == 3 && Score(t, gts[1], preds[1]) == 3;
    TwoPicks(t, gts, preds, 2, 0, 3, 3);
  }

  lemma NameVerdicts(t: Text, y: string, x: string)
    requires Lawful(t) && Far(t, y, x)
    ensures Compare(t, y, x, PRODUCT_NAME) == Some(false) && Marked(t, y, x, PRODUCT_NAME) == t.strip(y)
    ensures Compare(t, y, y, PRODUCT_NAME) == Compare(t, t.strip(y), y, PRODUCT_NAME) == Some(true)
    ensures Marked(t, y, y, PRODUCT_NAME) == y && t.Clean(t.strip(y)) == t.Clean(y)
  {
    assert t.Clean("") == "";
    assert t.strip(t.strip(y)) == t.strip(y);
    assert t.ratio(t.Clean(y), t.Clean(y)) == 1.0;
  }

  lemma PairSkeleton(t: Text, x: string, y: string, b: string, z: string)
    requires Lawful(t) && Far(t, y, x) && BlankFor(t, b, z)
    ensures var ss := Rebuilt(t, Pair(y, b, y), Pair(x, z, y)).products;
      Reads(ss[0], t.strip(y), "", "") && Reads(ss[1], y, "", "")
  {
    var pred, gt := Pair(y, b, y), Pair(x, z, y);
    PairFirstRun(t, x, y, b, z);
    RowOfSkeleton(t, pred, gt, [0, 1], 0);
    RowOfSkeleton(t, pred, gt, [0, 1], 1);
    var ss := Rebuilt(t, pred, gt).products;
    LineReads(t, y, b, "", x, z, "", ss[0]);
    LineReads(t, y, "", "", y, "", "", ss[1]);
    NameVerdicts(t, y, x);
    BlankVerdicts(t, b, z);
  }

  lemma PairScores(t: Text, x: string, y: string, z: string, s0: Record, s1: Record)
    requires Lawful(t) && Far(t, y, x) && z != "" && Reads(s0, t.strip(y), "", "") && Reads(s1, y, "", "")
    ensures Score(t, Line(x, z, ""), s0) == Score(t, Line(x, z, ""), s1) == 0
    ensures Score(t, Line(y, "", ""), s0) == Score(t, Line(y, "", ""), s1) == 3
  {
    NameVerdicts(t, y, x);
  }

  lemma PairFirstVerdicts(t: Text, x: string, y: string, b: string, z: string)
    requires Lawful(t) && Far(t, y, x) && BlankFor(t, b, z)
    ensures SameVerdicts(t, map[], Line(y, b, ""), Line(x, z, ""))
  {
    NameVerdicts(t, y, x);
    BlankVerdicts(t, b, z);
    SameLine(t, map[], "", "", "", Line(y, b, ""), y, b, "", x, z, "");
  }

  lemma PairSecondVerdicts(t: Text, x: string, y: string, s0: Record)
    requires Lawful(t) && Far(t, y, x) && Reads(s0, t.strip(y), "", "")
    ensures SameVerdicts(t, s0, Line(y, "", ""), Line(y, "", ""))
  {
    NameVerdicts(t, y, x);
    SameLine(t, s0, t.strip(y), "", "", Line(y, "", ""), y, "", "", y, "", "");
  }

  lemma ThreatUnsettles(t: Text, pred: Invoice, gt: Invoice, k: nat, j: nat)
    requires k < |gt.products| && j < |gt.products| && Threatens(t, gt.products, Rebuilt(t, pred, gt).products, k, j)
    ensures !Settled(t, pred, gt)
  {
    var ss := Rebuilt(t, pred, gt).products;
    assert !Settles(t, gt.products, pred.products, FirstChoices(t, pred, gt), ss, k);
  }

  lemma TieIsUnsettled(t: Text, pred: Invoice, gt: Invoice)
    requires |gt.products| == 2
    requires var ss := Rebuilt(t, pred, gt).products;
      Own(t, gt.products, ss, 0) == 0 && Ties(t, gt.products, ss, 1, 0)
    ensures !Settled(t, pred, gt)
  {
    ThreatUnsettles(t, pred, gt, 1, 0);
  }

  lemma PairPlain(t: Text, x: string, y: string, z: string)
    requires !Blank(t, z)
    ensures AllPlain(t, Pair(x, z, y).products)
  {
    LinePlain(t, x, z, "");
    LinePlain(t, y, "", "");
  }

  /** Why ties with a row lost with nothing right in it are excluded: the second label row takes that
      row of the skeleton, which comes first, for its own, and no result changes. */
  lemma TieWithoutTrace(t: Text, x: string, y: string, b: string, z: string)
    requires Lawful(t) && Far(t, y, x) && BlankFor(t, b, z)
    ensures AllPlain(t, Pair(x, z, y).products) && !Settled(t, Pair(y, b, y), Pair(x, z, y))
    ensures FirstChoices(t, Pair(y, b, y), Pair(x, z, y)) == [0, 1]
    ensures FirstChoices(t, Rebuilt(t, Pair(y, b, y), Pair(x, z, y)), Pair(x, z, y)) == [-1, 0]
    ensures Collected(Evaluated(t, Rebuilt(t, Pair(y, b, y), Pair(x, z, y)), Pair(x, z, y)))
         == Collected(Evaluated(t, Pair(y, b, y), Pair(x, z, y)))
  {
    var pred, gt := Pair(y, b, y), Pair(x, z, y);
    var ss := Rebuilt(t, pred, gt).products;
    PairPlain(t, x, y, z);
    PairFirstRun(t, x, y, b, z);
    PairSkeleton(t, x, y, b, z);
    PairScores(t, x, y, z, ss[0], ss[1]);
    TwoPicks(t, gt.products, ss, 0, 0, 3, 3);
    TieIsUnsettled(t, pred, gt);
    PairFirstVerdicts(t, x, y, b, z);
    PairSecondVerdicts(t, x, y, ss[0]);
    TwoSameRows(t, pred, gt, 0, 1, -1, 0);
  }

  // ---- A blank price of the label ----

  /** The product `x` at two prices, the first of them the blank text `b`. */
  function HalfPriced(x: string, b: string, v: string, w: string): Invoice {
    Invoice(map[], [Line(x, b, w), Line(x, v, w)])
  }

  /** Its prediction: the first price missing, the name of the second product `y` and its price `z`. */
  function Mispriced(x: string, y: string, z: string, w: string): Invoice {
    Invoice(map[], [Line(x, "", w), Line(y, z, w)])
  }

  ghost predicate Swappable(t: Text, x: string, y: string, b: string, z: string, v: string, w: string) {
    Lawful(t) && Near(t, y, x) && BlankFor(t, b, z) && OtherPrices(t, v, z) && w != ""
  }

  lemma SwapFirstScores(t: Text, x: string, y: string, b: string, z: string, w: string)
    requires Near(t, y, x) && BlankFor(t, b, z) && w != ""
    ensures Score(t, Line(x, b, w), Line(x, "", w)) == 5 && Score(t, Line(x, b, w), Line(y, z, w)) == 4
  {
  }

  lemma SwapSecondScores(t: Text, x: string, y: string, z: string, v: string, w: string)
    requires Near(t, y, x) && OtherPrices(t, v, z) && w != ""
    ensures Score(t, Line(x, v, w), Line(x, "", w)) == 5 && Score(t, Line(x, v, w), Line(y, z, w)) == 2
  {
  }

  lemma SwapFirstRun(t: Text, x: string, y: string, b: string, z: string, v: string, w: string)
    requires Swappable(t, x, y, b, z, v, w)
    ensures FirstChoices(t, Mispriced(x, y, z, w), HalfPriced(x, b, v, w)) == [0, 1]
  {
    SwapFirstScores(t, x, y, b, z, w);
    SwapSecondScores(t, x, y, z, v, w);
    TwoPicks(t, HalfPriced(x, b, v, w).products, Mispriced(x, y, z, w).products, 5, 4, 5, 2);
  }

  lemma SameTexts(t: Text, x: string, w: string)
    requires Lawful(t) && t.Clean(x) != ""
    ensures Compare(t, x, x, PRODUCT_NAME) == Some(true) && Marked(t, x, x, PRODUCT_NAME) == x
    ensures Marked(t, w, w, PRODUCT_TOTAL_MONEY) == w
    ensures t.strip("") == ""
  {
    assert t.Clean("") == "" && t.ratio(t.Clean(x), t.Clean(x)) == 1.0;
  }

  lemma SwapSkeleton(t: Text, x: string, y: string, b: string, z: string, v: string, w: string)
    requires Swappable(t, x, y, b, z, v, w)
    ensures var ss := Rebuilt(t, Mispriced(x, y, z, w), HalfPriced(x, b, v, w)).products;
      Reads(ss[0], x, "", w) && Reads(ss[1], x, t.strip(z), w)
  {
    var pred, gt := Mispriced(x, y, z, w), HalfPriced(x, b, v, w);
    SwapFirstRun(t, x, y, b, z, v, w);
    RowOfSkeleton(t, pred, gt, [0, 1], 0);
    RowOfSkeleton(t, pred, gt, [0, 1], 1);
    var ss := Rebuilt(t, pred, gt).products;
    LineReads(t, x, "", w, x, b, w, ss[0]);
    LineReads(t, y, z, w, x, v, w, ss[1]);
    SameTexts(t, x, w);
    NearIsRight(t, y, x);
    PriceVerdicts(t, v, z);
  }

  lemma SwapScores(t: Text, x: string, p: string, w: string, z: string, s0: Record, s1: Record)
    requires Lawful(t) && t.Clean(x) != "" && w != "" && p != "" && z != "" && !Blank(t, z)
    requires Reads(s0, x, "", w) && Reads(s1, x, t.strip(z), w)
    ensures Score(t, Line(x, p, w), s0) == 5
    ensures Score(t, Line(x, p, w), s1) == if t.Money(z) == t.Money(p) then 7 else 5
  {
    MoneyOfClean(t, z);
  }

  lemma SwapFirstVerdicts(t: Text, x: string, y: string, b: string, z: string, v: string, w: string, s1: Record)
    requires Swappable(t, x, y, b, z, v, w) && Reads(s1, x, t.strip(z), w)
    ensures SameVerdicts(t, s1, Line(x, "", w), Line(x, b, w))
  {
    BlankVerdicts(t, b, z);
    SameLine(t, s1, x, t.strip(z), w, Line(x, "", w), x, "", w, x, b, w);
  }

  lemma SwapSecondTexts(t: Text, x: string, y: string, b: string, z: string, v: string, w: string)
    requires Swappable(t, x, y, b, z, v, w)
    ensures Compare(t, x, x, PRODUCT_NAME) == Compare(t, y, x, PRODUCT_NAME)
    ensures Compare(t, "", v, PRODUCT_UNIT_PRICE) == Compare(t, z, v, PRODUCT_UNIT_PRICE)
  {
    SameTexts(t, x, w);
    NearIsRight(t, y, x);
    PriceVerdicts(t, v, z);
  }

  lemma SwapSecondVerdicts(t: Text, x: string, y: string, b: string, z: string, v: string, w: string, s0: Record)
    requires Swappable(t, x, y, b, z, v, w) && Reads(s0, x, "", w)
    ensures SameVerdicts(t, s0, Line(y, z, w), Line(x, v, w))
  {
    SwapSecondTexts(t, x, y, b, z, v, w);
    SameLine(t, s0, x, "", w, Line(y, z, w), y, z, w, x, v, w);
  }

  lemma NoLossNoTies(t: Text, gts: seq<Record>, preds: seq<Record>, cs: seq<int>, ss: seq<Record>)
    requires |cs| == |gts| == |ss| == 2 && forall i :: 0 <= i < |cs| ==> -1 <= cs[i] < |preds|
    requires Own(t, gts, ss, 0) > 0
    ensures NoLossTies(t, gts, preds, cs, ss)
  {
    forall c, k | 0 <= c < k < |gts| ensures !LossTies(t, gts, preds, cs, ss, k, c) {
      assert c == 0;
    }
  }

  lemma TheftIsUnsettled(t: Text, pred: Invoice, gt: Invoice)
    requires |gt.products| == 2
    requires var ss := Rebuilt(t, pred, gt).products;
      Own(t, gt.products, ss, 0) > 0 && Steals(t, gt.products, ss, 0, 1)
    ensures NoLossTies(t, gt.products, pred.products, FirstChoices(t, pred, gt), Rebuilt(t, pred, gt).products)
    ensures !Settled(t, pred, gt)
  {
    var ss := Rebuilt(t, pred, gt).products;
    NoLossNoTies(t, gt.products, pred.products, FirstChoices(t, pred, gt), ss);
    ThreatUnsettles(t, pred, gt, 0, 1);
  }

  /** Both runs, their scores, and what displaces the first row. */
  lemma SwapRuns(t: Text, x: string, y: string, b: string, z: string, v: string, w: string)
    requires Swappable(t, x, y, b, z, v, w)
    ensures var pred, gt := Mispriced(x, y, z, w), HalfPriced(x, b, v, w);
      var ss := Rebuilt(t, pred, gt).products;
      && Own(t, gt.products, ss, 0) > 0 && Steals(t, gt.products, ss, 0, 1)
      && FirstChoices(t, pred, gt) == [0, 1] && Choices(t, gt.products, ss, 2) == [1, 0]
  {
    var gts, ss := HalfPriced(x, b, v, w).products, Rebuilt(t, Mispriced(x, y, z, w), HalfPriced(x, b, v, w)).products;
    SwapFirstRun(t, x, y, b, z, v, w);
    SwapSkeleton(t, x, y, b, z, v, w);
    SwapScores(t, x, b, w, z, ss[0], ss[1]);
    SwapScores(t, x, v, w, z, ss[0], ss[1]);
    TwoPicks(t, gts, ss, 5, 7, 5, 5);
  }

  lemma SwapUnsettled(t: Text, x: string, y: string, b: string, z: string, v: string, w: string)
    requires Swappable(t, x, y, b, z, v, w)
    ensures var pred, gt := Mispriced(x, y, z, w), HalfPriced(x, b, v, w);
      && NoLossTies(t, gt.products, pred.products, FirstChoices(t, pred, gt), Rebuilt(t, pred, gt).products)
      && !Settled(t, pred, gt)
  {
    SwapRuns(t, x, y, b, z, v, w);
    TheftIsUnsettled(t, Mispriced(x, y, z, w), HalfPriced(x, b, v, w));
  }

  lemma SwapSameResults(t: Text, x: string, y: string, b: string, z: string, v: string, w: string)
    requires Swappable(t, x, y, b, z, v, w)
    ensures var pred, gt := Mispriced(x, y, z, w), HalfPriced(x, b, v, w);
      Collected(Evaluated(t, Rebuilt(t, pred, gt), gt)) == Collected(Evaluated(t, pred, gt))
  {
    var pred, gt := Mispriced(x, y, z, w), HalfPriced(x, b, v, w);
    var ss := Rebuilt(t, pred, gt).products;
    SwapRuns(t, x, y, b, z, v, w);
    SwapSkeleton(t, x, y, b, z, v, w);
    SwapFirstVerdicts(t, x, y, b, z, v, w, ss[1]);
    SwapSecondVerdicts(t, x, y, b, z, v, w, ss[0]);
    TwoSameRows(t, pred, gt, 0, 1, 1, 0);
  }

  /** Why labels with a blank price are excluded: the two rows of the skeleton change places, and no
      result changes. */
  lemma SwapWithoutTrace(t: Text, x: string, y: string, b: string, z: string, v: string, w: string)
    requires Swappable(t, x, y, b, z, v, w)
    ensures var pred, gt := Mispriced(x, y, z, w), HalfPriced(x, b, v, w);
      && NoLossTies(t, gt.products, pred.products, FirstChoices(t, pred, gt), Rebuilt(t, pred, gt).products)
      && !Settled(t, pred, gt)
      && FirstChoices(t, pred, gt) == [0, 1] && FirstChoices(t, Rebuilt(t, pred, gt), gt) == [1, 0]
      && Collected(Evaluated(t, Rebuilt(t, pred, gt), gt)) == Collected(Evaluated(t, pred, gt))
  {
    SwapRuns(t, x, y, b, z, v, w);
    SwapUnsettled(t, x, y, b, z, v, w);
    SwapSameResults(t, x, y, b, z, v, w);
  }

  // ---- The laws can be met ----

  /** Strips one blank, and finds no two texts similar. */
  const PLAIN: Text := Text(
    x => if x == " " then "" else x,
    x => x,
    c => '0' <= c <= '9',
    x => x,
    (p, g) => if p == g then 1.0 else 0.0)

  lemma PlainIsLawful()
    ensures Lawful(PLAIN) && BlankFor(PLAIN, " ", "0") && Far(PLAIN, "Y", "X")
  {
    assert PLAIN.Digits("") == "";
    assert "0"[1..] == "" && " "[1..] == "";
    assert PLAIN.Digits("0") == "0" && PLAIN.Digits(" ") == "";
  }
}
