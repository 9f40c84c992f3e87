/** Scoring the skeleton of a report gives the verdicts of the report again. */
module RoundTrip {
  import opened Common
  import opened Evaluation
  import opened Alignment
  import opened Results

  // ---- One field ----

  /** What the skeleton holds where the prediction was `pred` and the label `gt`. */
  function Marked(t: Text, pred: string, gt: string, f: Field): string {
    if Compare(t, pred, gt, f) == Some(false) then t.strip(pred) else gt
  }

  lemma VerdictKept(t: Text, pred: string, gt: string, f: Field)
    requires Lawful(t)
    ensures Compare(t, Marked(t, pred, gt, f), gt, f) == Compare(t, pred, gt, f)
  {
    if Compare(t, pred, gt, f) == Some(false) {
      assert t.strip(t.strip(pred)) == t.strip(pred);
    }
  }

  lemma MoneyOfClean(t: Text, x: string)
    requires Lawful(t) && !Blank(t, x)
    ensures t.Money(t.strip(x)) == t.Money(x) && t.Money(t.Clean(x)) == t.Money(x)
  {
    assert t.Digits(t.Clean(x)) == t.Digits(t.strip(x)) == t.Digits(x);
    assert t.lower(t.strip(x)) == "" <==> t.strip(x) == "";
  }

  lemma MoneyMarked(t: Text, pred: string, gt: string, f: Field)
    requires Lawful(t) && IsMoney(f) && !Blank(t, pred) && !Blank(t, gt)
    ensures t.Money(Marked(t, pred, gt, f)) == if gt == "" then "" else t.Money(pred)
  {
    MoneyOfClean(t, pred);
    MoneyOfClean(t, gt);
  }

  lemma NameMarked(t: Text, pred: string, gt: string)
    requires Lawful(t)
    ensures var name := t.Clean(Marked(t, pred, gt, PRODUCT_NAME));
      && (name == t.Clean(pred) || name == t.Clean(gt))
      && (t.Clean(gt) != "" && t.Clean(pred) == t.Clean(gt) ==> name == t.Clean(gt))
      && (gt == "" ==> name == "")
  {
    assert t.strip(t.strip(pred)) == t.strip(pred);
    assert t.lower("") == "";
    assert t.ratio(t.Clean(gt), t.Clean(gt)) == 1.0;
  }

  // ---- One row ----

  ghost predicate MarkedRow(t: Text, pred: Record, gt: Record, s: Record) {
    forall f :: f in PRODUCT_FIELDS ==> Get(s, f) == Marked(t, Get(pred, f), Get(gt, f), f)
  }

  /** Neither price is text that stripping empties. */
  predicate PricesPlain(t: Text, r: Record) {
    !Blank(t, Get(r, PRODUCT_UNIT_PRICE)) && !Blank(t, Get(r, PRODUCT_TOTAL_MONEY))
  }

  predicate PricesAbsent(r: Record) {
    Get(r, PRODUCT_UNIT_PRICE) == "" && Get(r, PRODUCT_TOTAL_MONEY) == ""
  }

  /** The three fields that the alignment scores are among those of a row. */
  lemma ScoredFields()
    ensures PRODUCT_NAME in PRODUCT_FIELDS
    ensures PRODUCT_UNIT_PRICE in PRODUCT_FIELDS && PRODUCT_TOTAL_MONEY in PRODUCT_FIELDS
  {
    assert PRODUCT_FIELDS[1] == PRODUCT_NAME;
    assert PRODUCT_FIELDS[2] == PRODUCT_UNIT_PRICE;
    assert PRODUCT_FIELDS[4] == PRODUCT_TOTAL_MONEY;
  }

  lemma RowMarked(t: Text, pred: Record, gt: Record, s: Record)
    requires Lawful(t) && PricesPlain(t, pred) && PricesPlain(t, gt) && MarkedRow(t, pred, gt, s)
    ensures t.Money(Get(s, PRODUCT_UNIT_PRICE))
         == if Get(gt, PRODUCT_UNIT_PRICE) == "" then "" else t.Money(Get(pred, PRODUCT_UNIT_PRICE))
    ensures t.Money(Get(s, PRODUCT_TOTAL_MONEY))
         == if Get(gt, PRODUCT_TOTAL_MONEY) == "" then "" else t.Money(Get(pred, PRODUCT_TOTAL_MONEY))
    ensures var f := PRODUCT_NAME;
      var name, p, g := t.Clean(Get(s, f)), t.Clean(Get(pred, f)), t.Clean(Get(gt, f));
      (name == p || name == g) && (g != "" && p == g ==> name == g)
  {
    ScoredFields();
    MoneyMarked(t, Get(pred, PRODUCT_UNIT_PRICE), Get(gt, PRODUCT_UNIT_PRICE), PRODUCT_UNIT_PRICE);
    MoneyMarked(t, Get(pred, PRODUCT_TOTAL_MONEY), Get(gt, PRODUCT_TOTAL_MONEY), PRODUCT_TOTAL_MONEY);
    NameMarked(t, Get(pred, PRODUCT_NAME), Get(gt, PRODUCT_NAME));
  }

  /** Its skeleton scores at least as well for a label row as the predicted row did. */
  lemma OwnScoreKept(t: Text, pred: Record, gt: Record, s: Record)
    requires Lawful(t) && PricesPlain(t, pred) && PricesPlain(t, gt) && MarkedRow(t, pred, gt, s)
    ensures Score(t, gt, s) >= Score(t, gt, pred)
  {
    RowMarked(t, pred, gt, s);
  }

  /** No other label row's skeleton gains on it, unless it is for the name alone. */
  lemma OtherScoreBounded(t: Text, row: Record, pred: Record, gt: Record, s: Record)
    requires Lawful(t) && PricesPlain(t, pred) && PricesPlain(t, gt) && MarkedRow(t, pred, gt, s)
    requires Score(t, gt, pred) > 0
    requires t.Clean(Get(row, PRODUCT_NAME)) == t.Clean(Get(gt, PRODUCT_NAME)) != "" ==> PricesAbsent(gt)
    ensures Score(t, row, s) <= Score(t, row, pred)
  {
    RowMarked(t, pred, gt, s);
  }

  lemma NothingScores(t: Text, row: Record, s: Record)
    requires Lawful(t)
    requires forall f :: f in PRODUCT_FIELDS ==> Get(s, f) == ""
    ensures Score(t, row, s) == 0
  {
    ScoredFields();
    assert t.Clean("") == "";
  }

  // ---- The second alignment ----

  /** Two label rows of one name are allowed only if the later one has no prices to match. */
  ghost predicate NamesDistinguish(t: Text, gts: seq<Record>) {
    forall i, k :: 0 <= i < k < |gts| && t.Clean(Get(gts[i], PRODUCT_NAME)) == t.Clean(Get(gts[k], PRODUCT_NAME)) != ""
      ==> PricesAbsent(gts[k])
  }

  ghost predicate AllPlain(t: Text, rows: seq<Record>) {
    forall i :: 0 <= i < |rows| ==> PricesPlain(t, rows[i])
  }

  /** `ss` marks, row by row, what the choices `cs` among `preds` made of the label. */
  ghost predicate MarkedRows(t: Text, gts: seq<Record>, preds: seq<Record>, cs: seq<int>, ss: seq<Record>)
    requires |cs| == |gts| && forall i :: 0 <= i < |cs| ==> -1 <= cs[i] < |preds|
  {
    |ss| == |gts| && forall i :: 0 <= i < |gts| ==> MarkedRow(t, Row(preds, cs[i]), gts[i], ss[i])
  }

  lemma MarkedBlank(t: Text, gt: Record, s: Record)
    requires Lawful(t) && MarkedRow(t, map[], gt, s)
    ensures forall f :: f in PRODUCT_FIELDS ==> Get(s, f) == ""
  {
    forall f | f in PRODUCT_FIELDS ensures Get(s, f) == "" {
      assert Get(map[], f) == "";
      assert Get(s, f) == Marked(t, "", Get(gt, f), f);
    }
  }

  /** The choices `cs` of the first run, and the rows `ss` of the skeleton. */
  ghost predicate Setting(t: Text, gts: seq<Record>, preds: seq<Record>, cs: seq<int>, ss: seq<Record>) {
    && Lawful(t)
    && cs == Choices(t, gts, preds, |gts|)
    && MarkedRows(t, gts, preds, cs, ss)
  }

  lemma LeftOverScoresNothing(t: Text, gts: seq<Record>, preds: seq<Record>, cs: seq<int>, ss: seq<Record>,
                              j: nat, row: Record)
    requires Setting(t, gts, preds, cs, ss) && j < |gts| && cs[j] == -1
    ensures Score(t, row, ss[j]) == 0
  {
    assert MarkedRow(t, Row(preds, cs[j]), gts[j], ss[j]);
    MarkedBlank(t, gts[j], ss[j]);
    NothingScores(t, row, ss[j]);
  }

  lemma AlignedScores(t: Text, gts: seq<Record>, preds: seq<Record>, cs: seq<int>, ss: seq<Record>, j: nat)
    requires Setting(t, gts, preds, cs, ss) && AllPlain(t, gts) && AllPlain(t, preds) && j < |gts| && cs[j] != -1
    ensures 0 < Score(t, gts[j], preds[cs[j]]) <= Score(t, gts[j], ss[j])
  {
    ChoicesAreChosen(t, gts, preds, |gts|, j);
    assert MarkedRow(t, Row(preds, cs[j]), gts[j], ss[j]) && PricesPlain(t, gts[j]) && PricesPlain(t, preds[cs[j]]);
    OwnScoreKept(t, preds[cs[j]], gts[j], ss[j]);
  }

  // ---- Displacement ----

  /** What row `k` of the skeleton scores for the label row it was made for. */
  function Own(t: Text, gts: seq<Record>, ss: seq<Record>, k: nat): nat
    requires k < |gts| == |ss|
  {
    Score(t, gts[k], ss[k])
  }

  /** Every label row with its own row of the skeleton, if that scores. */
  function Kept(t: Text, gts: seq<Record>, ss: seq<Record>): (ks: seq<int>)
    requires |gts| == |ss|
    ensures |ks| == |ss| && forall i :: 0 <= i < |ks| ==> ks[i] == if Own(t, gts, ss, i) == 0 then -1 else i
  {
    seq(|ss|, i requires 0 <= i < |ss| => if Own(t, gts, ss, i) == 0 then -1 else i)
  }

  /** Label row `k` scores row `j` of the skeleton higher than its own. */
  predicate Steals(t: Text, gts: seq<Record>, ss: seq<Record>, k: nat, j: nat)
    requires k < |gts| == |ss| && j < |ss|
  {
    Score(t, gts[k], ss[j]) > Own(t, gts, ss, k)
  }

  /** It scores it as high as its own. */
  predicate Ties(t: Text, gts: seq<Record>, ss: seq<Record>, k: nat, j: nat)
    requires k < |gts| == |ss| && j < |ss|
  {
    Score(t, gts[k], ss[j]) == Own(t, gts, ss, k) > 0
  }

  /** Label row `k` can have row `j` of the skeleton once the label rows before it have their own. */
  predicate Free(t: Text, gts: seq<Record>, ss: seq<Record>, k: nat, j: nat)
    requires k < |gts| == |ss| && j < |ss|
  {
    j >= k || Own(t, gts, ss, j) == 0
  }

  /** Label row `k` would take row `j` of the skeleton in place of its own: it scores higher, or as high
      and comes first. */
  predicate Threatens(t: Text, gts: seq<Record>, ss: seq<Record>, k: nat, j: nat)
    requires k < |gts| == |ss| && j < |ss|
  {
    Free(t, gts, ss, k, j) && (Steals(t, gts, ss, k, j) || (j < k && Ties(t, gts, ss, k, j)))
  }

  ghost predicate Content(t: Text, gts: seq<Record>, ss: seq<Record>, k: nat)
    requires k < |gts| == |ss|
  {
    forall j :: 0 <= j < |ss| ==> !Threatens(t, gts, ss, k, j)
  }

  /** The first `n` label rows would take no row in place of their own. */
  ghost predicate Undisplaced(t: Text, gts: seq<Record>, ss: seq<Record>, n: nat)
    requires n <= |gts| == |ss|
  {
    forall k :: 0 <= k < n ==> Content(t, gts, ss, k)
  }

  lemma TakenKept(t: Text, gts: seq<Record>, ss: seq<Record>, k: nat, j: nat)
    requires k < |gts| == |ss| && j < |ss|
    ensures j !in Taken(Kept(t, gts, ss)[..k]) <==> Free(t, gts, ss, k, j)
  {
    if j < k && Own(t, gts, ss, j) > 0 {
      TakenMember(Kept(t, gts, ss), k, j);
    }
  }

  lemma ChosenIffContent(t: Text, gts: seq<Record>, ss: seq<Record>, k: nat)
    requires k < |gts| == |ss|
    ensures Chosen(t, gts[k], ss, Taken(Kept(t, gts, ss)[..k]), Kept(t, gts, ss)[k]) <==> Content(t, gts, ss, k)
  {
    var used := Taken(Kept(t, gts, ss)[..k]);
    forall j | 0 <= j < |ss| ensures j !in used <==> Free(t, gts, ss, k, j) {
      TakenKept(t, gts, ss, k, j);
    }
    if Content(t, gts, ss, k) {
      forall j | 0 <= j < |ss| && j !in used
        ensures Score(t, gts[k], ss[j]) <= Own(t, gts, ss, k)
        ensures j < k && Own(t, gts, ss, k) > 0 ==> Score(t, gts[k], ss[j]) < Own(t, gts, ss, k)
      {
        assert !Threatens(t, gts, ss, k, j);
      }
    } else {
      var j :| 0 <= j < |ss| && Threatens(t, gts, ss, k, j);
      assert j !in used && Score(t, gts[k], ss[j]) >= Own(t, gts, ss, k);
    }
  }

  ghost predicate IsChoice(t: Text, gts: seq<Record>, preds: seq<Record>, ks: seq<int>, k: nat)
    requires k < |gts| && k < |ks|
  {
    Choice(t, gts[k], preds, Taken(ks[..k])) == ks[k]
  }

  lemma {:induction false} ChoicesOneByOne(t: Text, gts: seq<Record>, preds: seq<Record>, ks: seq<int>, n: nat)
    requires n <= |gts| == |ks|
    requires forall k :: 0 <= k < n ==> IsChoice(t, gts, preds, ks, k)
    ensures Choices(t, gts, preds, n) == ks[..n]
  {
    if n == 0 {
    } else {
      ChoicesOneByOne(t, gts, preds, ks, n - 1);
      assert IsChoice(t, gts, preds, ks, n - 1);
      assert ks[..n] == ks[..n - 1] + [ks[n - 1]];
    }
  }

  /** As far as nothing is displaced, every label row takes its own row of the skeleton if that
      scores, and none otherwise. */
  lemma SecondAlignment(t: Text, gts: seq<Record>, ss: seq<Record>, n: nat)
    requires n <= |gts| == |ss| && Undisplaced(t, gts, ss, n)
    ensures Choices(t, gts, ss, n) == Kept(t, gts, ss)[..n]
  {
    var ks := Kept(t, gts, ss);
    forall k | 0 <= k < n ensures IsChoice(t, gts, ss, ks, k) {
      ChosenIffContent(t, gts, ss, k);
      ChosenIsChoice(t, gts[k], ss, Taken(ks[..k]), ks[k]);
    }
    ChoicesOneByOne(t, gts, ss, ks, n);
  }

  /** And on all inputs only then. */
  lemma SecondAlignmentExactly(t: Text, gts: seq<Record>, ss: seq<Record>)
    requires |gts| == |ss|
    ensures Choices(t, gts, ss, |gts|) == Kept(t, gts, ss) <==> Undisplaced(t, gts, ss, |gts|)
  {
    if Undisplaced(t, gts, ss, |gts|) {
      SecondAlignment(t, gts, ss, |gts|);
      assert Kept(t, gts, ss)[..|gts|] == Kept(t, gts, ss);
    } else if Choices(t, gts, ss, |gts|) == Kept(t, gts, ss) {
      forall k | 0 <= k < |gts| ensures Content(t, gts, ss, k) {
        ChoicesAreChosen(t, gts, ss, |gts|, k);
        ChosenIffContent(t, gts, ss, k);
      }
    }
  }

  /** What the first run gave label row `k`, in terms of the skeleton. */
  predicate Repeated(cs: seq<int>, ks: seq<int>, k: nat)
    requires k < |cs| == |ks|
  {
    ks[k] == if cs[k] == -1 then -1 else k
  }

  ghost predicate LosesNone(t: Text, gts: seq<Record>, cs: seq<int>, ss: seq<Record>)
    requires |cs| == |gts| == |ss|
  {
    forall k :: 0 <= k < |gts| ==> (cs[k] != -1 ==> Own(t, gts, ss, k) > 0)
  }

  lemma RepeatedScores(t: Text, gts: seq<Record>, cs: seq<int>, ss: seq<Record>, k: nat)
    requires k < |gts| == |ss| == |cs| && cs[k] != -1 && Repeated(cs, Choices(t, gts, ss, |gts|), k)
    ensures Own(t, gts, ss, k) > 0
  {
    ChoicesAreChosen(t, gts, ss, |gts|, k);
  }

  lemma KeptIsRepeated(t: Text, gts: seq<Record>, preds: seq<Record>, cs: seq<int>, ss: seq<Record>)
    requires Setting(t, gts, preds, cs, ss) && LosesNone(t, gts, cs, ss)
    ensures forall k :: 0 <= k < |gts| ==> Kept(t, gts, ss)[k] == if cs[k] == -1 then -1 else k
  {
    forall k | 0 <= k < |gts| ensures Kept(t, gts, ss)[k] == if cs[k] == -1 then -1 else k {
      if cs[k] == -1 {
        LeftOverScoresNothing(t, gts, preds, cs, ss, k, gts[k]);
      }
    }
  }

  /** The second run repeats the first exactly if nothing is displaced and no row that had a partner
      fails to score for its own label row. */
  lemma SecondRunRepeatsExactly(t: Text, gts: seq<Record>, preds: seq<Record>, cs: seq<int>, ss: seq<Record>)
    requires Setting(t, gts, preds, cs, ss)
    ensures (forall k :: 0 <= k < |gts| ==> Repeated(cs, Choices(t, gts, ss, |gts|), k))
       <==> Undisplaced(t, gts, ss, |gts|) && LosesNone(t, gts, cs, ss)
  {
    var ks := Choices(t, gts, ss, |gts|);
    SecondAlignmentExactly(t, gts, ss);
    if forall k :: 0 <= k < |gts| ==> Repeated(cs, ks, k) {
      forall k | 0 <= k < |gts| && cs[k] != -1 ensures Own(t, gts, ss, k) > 0 {
        RepeatedScores(t, gts, cs, ss, k);
      }
      KeptIsRepeated(t, gts, preds, cs, ss);
      forall k | 0 <= k < |gts| ensures ks[k] == Kept(t, gts, ss)[k] {
        assert Repeated(cs, ks, k);
      }
      assert ks == Kept(t, gts, ss);
    } else if LosesNone(t, gts, cs, ss) {
      KeptIsRepeated(t, gts, preds, cs, ss);
    }
  }

  /** The first label row that is not content takes another row in place of its own. */
  lemma FirstTheft(t: Text, gts: seq<Record>, ss: seq<Record>, k: nat)
    requires k < |gts| == |ss|
    requires Undisplaced(t, gts, ss, k) && !Content(t, gts, ss, k)
    ensures var c := Choices(t, gts, ss, |gts|)[k];
      0 <= c && Threatens(t, gts, ss, k, c)
  {
    SecondAlignment(t, gts, ss, k);
    ChoicesPrefix(t, gts, ss, |gts|, k);
    ChoicesAreChosen(t, gts, ss, |gts|, k);
    var j :| 0 <= j < |ss| && Threatens(t, gts, ss, k, j);
    TakenKept(t, gts, ss, k, j);
    var c := Choices(t, gts, ss, |gts|)[k];
    if c != -1 {
      TakenKept(t, gts, ss, k, c);
    }
  }

  // ---- Names that tell rows apart ----

  lemma EarlierGainsNothing(t: Text, gts: seq<Record>, preds: seq<Record>, cs: seq<int>, ss: seq<Record>,
                            k: nat, j: nat)
    requires Setting(t, gts, preds, cs, ss) && AllPlain(t, gts) && AllPlain(t, preds)
    requires NamesDistinguish(t, gts) && k < j < |gts| && cs[j] != -1
    ensures Score(t, gts[k], ss[j]) <= Score(t, gts[k], preds[cs[j]])
  {
    AlignedScores(t, gts, preds, cs, ss, j);
    assert MarkedRow(t, Row(preds, cs[j]), gts[j], ss[j]) && PricesPlain(t, gts[j]) && PricesPlain(t, preds[cs[j]]);
    OtherScoreBounded(t, gts[k], preds[cs[j]], gts[j], ss[j]);
  }

  /** The row that a later label row took was free before, and was not wanted more. */
  lemma LaterWasFree(t: Text, gts: seq<Record>, preds: seq<Record>, cs: seq<int>, k: nat, j: nat)
    requires cs == Choices(t, gts, preds, |gts|) && k < j < |gts| && cs[j] != -1
    ensures Score(t, gts[k], preds[cs[j]]) <= if cs[k] == -1 then 0 else Score(t, gts[k], preds[cs[k]])
  {
    ChoicesAreChosen(t, gts, preds, |gts|, k);
    if cs[j] in Taken(cs[..k]) {
      var i :| 0 <= i < |cs[..k]| && cs[..k][i] != -1 && cs[..k][i] == cs[j];
      ChoicesInjective(t, gts, preds, i, j);
      assert false;
    }
  }

  lemma NamesPreventTheft(t: Text, gts: seq<Record>, preds: seq<Record>, cs: seq<int>, ss: seq<Record>, k: nat, j: nat)
    requires Setting(t, gts, preds, cs, ss) && AllPlain(t, gts) && AllPlain(t, preds)
    requires NamesDistinguish(t, gts) && k < j < |gts|
    ensures !Steals(t, gts, ss, k, j)
  {
    if cs[j] == -1 {
      LeftOverScoresNothing(t, gts, preds, cs, ss, j, gts[k]);
    } else {
      EarlierGainsNothing(t, gts, preds, cs, ss, k, j);
      LaterWasFree(t, gts, preds, cs, k, j);
      if cs[k] != -1 {
        AlignedScores(t, gts, preds, cs, ss, k);
      }
    }
  }

  // ---- The skeleton ----

  lemma {:induction false} PutValue(inv: Invoice, ref: Ref, text: string, other: Ref)
    requires ref.Product? ==> ref.i < |inv.products|
    ensures Value(Put(inv, ref, text), other) == if other == ref then text else Value(inv, other)
    ensures |Put(inv, ref, text).products| == |inv.products|
  {
  }

  lemma FailedIsLabelled(t: Text, a: Invoice, gt: Invoice, ref: Ref)
    requires Verdict(t, a, gt, ref) == Some(false)
    ensures ref.Product? ==> ref.i < |gt.products|
  {
  }

  lemma FailuresOfOneMore(t: Text, a: Invoice, gt: Invoice, refs: seq<Ref>, ref: Ref)
    ensures Failures(Checks(t, a, gt, refs + [ref])) == Failures(Checks(t, a, gt, refs))
      + if Verdict(t, a, gt, ref) != Some(false) then []
        else [Check(ref, false, t.strip(Value(gt, ref)), t.strip(Value(a, ref)))]
  {
    assert (refs + [ref])[..|refs|] == refs;
    var v, before := Verdict(t, a, gt, ref), Checks(t, a, gt, refs);
    if v.Some? {
      FailuresSnoc(before, Check(ref, v.value, t.strip(Value(gt, ref)), t.strip(Value(a, ref))));
    }
  }

  /** The skeleton of the checks of `refs`, place by place. */
  lemma {:induction false} SkeletonValue(t: Text, a: Invoice, gt: Invoice, refs: seq<Ref>, ref: Ref)
    ensures var s := Skeleton(Failures(Checks(t, a, gt, refs)), gt);
      && |s.products| == |gt.products|
      && Value(s, ref) ==
         if ref in refs && Verdict(t, a, gt, ref) == Some(false) then t.strip(Value(a, ref)) else Value(gt, ref)
  {
    if refs == [] {
    } else {
      var init, last := refs[..|refs| - 1], refs[|refs| - 1];
      assert refs == init + [last];
      SkeletonValue(t, a, gt, init, ref);
      FailuresOfOneMore(t, a, gt, init, last);
      var failed := Failures(Checks(t, a, gt, init));
      if Verdict(t, a, gt, last) == Some(false) {
        var c := Check(last, false, t.strip(Value(gt, last)), t.strip(Value(a, last)));
        SkeletonSnoc(failed, c, gt);
        FailedIsLabelled(t, a, gt, last);
        PutValue(Skeleton(failed, gt), last, c.predicted, ref);
      } else {
        assert failed + [] == failed;
      }
    }
  }

  lemma FailuresSnoc(checks: seq<Check>, c: Check)
    ensures Failures(checks + [c]) == Failures(checks) + if c.correct then [] else [c]
  {
    assert (checks + [c])[..|checks|] == checks;
  }

  lemma SkeletonSnoc(mismatches: seq<Check>, m: Check, gt: Invoice)
    ensures Skeleton(mismatches + [m], gt) == Put(Skeleton(mismatches, gt), m.ref, m.predicted)
  {
    assert (mismatches + [m])[..|mismatches|] == mismatches;
  }

  lemma {:induction false} ProductCompared(n: nat, i: nat, f: Field)
    requires i < n && f in PRODUCT_FIELDS
    ensures Product(i, f) in AllRefs(n)
  {
    if i < n - 1 {
      ProductCompared(n - 1, i, f);
    } else {
      var k :| 0 <= k < |PRODUCT_FIELDS| && PRODUCT_FIELDS[k] == f;
      assert Refs(PRODUCT_FIELDS, Some(i))[k] == Product(i, f);
    }
  }

  // ---- The round trip ----

  /** The skeleton of a whole report; no mismatch is beyond the rows of the label. */
  function Rebuilt(t: Text, pred: Invoice, gt: Invoice): (s: Invoice)
    ensures |s.products| == |gt.products|
  {
    EvaluatedOnLabels(t, pred, gt);
    SkeletonValue(t, AlignedInvoice(t, pred, gt), gt, AllRefs(|gt.products|), Base(NAME));
    Skeleton(Failures(Evaluated(t, pred, gt)), gt)
  }

  lemma RebuiltValue(t: Text, pred: Invoice, gt: Invoice, ref: Ref)
    ensures ref in AllRefs(|gt.products|) ==>
      Value(Rebuilt(t, pred, gt), ref) == Marked(t, Value(AlignedInvoice(t, pred, gt), ref), Value(gt, ref), ref.field)
  {
    EvaluatedOnLabels(t, pred, gt);
    SkeletonValue(t, AlignedInvoice(t, pred, gt), gt, AllRefs(|gt.products|), ref);
  }

  lemma RebuiltRows(t: Text, pred: Invoice, gt: Invoice)
    ensures var cs := Choices(t, gt.products, pred.products, |gt.products|);
      MarkedRows(t, gt.products, pred.products, cs, Rebuilt(t, pred, gt).products)
  {
    var cs, s := Choices(t, gt.products, pred.products, |gt.products|), Rebuilt(t, pred, gt);
    forall i | 0 <= i < |gt.products| ensures MarkedRow(t, Row(pred.products, cs[i]), gt.products[i], s.products[i]) {
      forall f | f in PRODUCT_FIELDS
        ensures Get(s.products[i], f) == Marked(t, Get(Row(pred.products, cs[i]), f), Get(gt.products[i], f), f)
      {
        ProductCompared(|gt.products|, i, f);
        RebuiltValue(t, pred, gt, Product(i, f));
        assert AlignedInvoice(t, pred, gt).products[i] == Row(pred.products, cs[i]);
      }
    }
  }

  /** The choices of the first run. */
  function FirstChoices(t: Text, pred: Invoice, gt: Invoice): seq<int> {
    Choices(t, gt.products, pred.products, |gt.products|)
  }

  predicate SameVerdictOn(t: Text, x: Record, a: Record, gt: Record, f: Field) {
    Compare(t, Get(x, f), Get(gt, f), f) == Compare(t, Get(a, f), Get(gt, f), f)
  }

  ghost predicate SameVerdicts(t: Text, x: Record, a: Record, gt: Record) {
    forall f :: f in PRODUCT_FIELDS ==> SameVerdictOn(t, x, a, gt, f)
  }

  /** The second run gives label row `k` the verdicts of the first. */
  ghost predicate SameRow(t: Text, pred: Invoice, gt: Invoice, k: nat)
    requires k < |gt.products|
  {
    var s := Rebuilt(t, pred, gt);
    var x, a := Row(s.products, FirstChoices(t, s, gt)[k]), Row(pred.products, FirstChoices(t, pred, gt)[k]);
    SameVerdicts(t, x, a, gt.products[k])
  }

  /** The verdict on a field of a label row is on the row it took. */
  lemma VerdictOfRow(t: Text, p: Invoice, gt: Invoice, k: nat, f: Field)
    requires k < |gt.products|
    ensures var row := Row(p.products, FirstChoices(t, p, gt)[k]);
      Verdict(t, AlignedInvoice(t, p, gt), gt, Product(k, f)) == Compare(t, Get(row, f), Get(gt.products[k], f), f)
  {
    assert AlignedInvoice(t, p, gt).products[k] == Row(p.products, FirstChoices(t, p, gt)[k]);
  }

  lemma {:induction false} ComparedProduct(n: nat, i: nat, f: Field)
    requires Product(i, f) in AllRefs(n)
    ensures i < n && f in PRODUCT_FIELDS
  {
    if n == 0 {
    } else if Product(i, f) in AllRefs(n - 1) {
      ComparedProduct(n - 1, i, f);
    }
  }

  lemma SameVerdict(t: Text, pred: Invoice, gt: Invoice, ref: Ref)
    requires Lawful(t) && ref in AllRefs(|gt.products|)
    requires forall k :: 0 <= k < |gt.products| ==> SameRow(t, pred, gt, k)
    ensures Verdict(t, AlignedInvoice(t, Rebuilt(t, pred, gt), gt), gt, ref)
         == Verdict(t, AlignedInvoice(t, pred, gt), gt, ref)
  {
    match ref
    case Base(f) =>
      RebuiltValue(t, pred, gt, ref);
      VerdictKept(t, Value(pred, ref), Value(gt, ref), f);
    case Product(k, f) =>
      ComparedProduct(|gt.products|, k, f);
      VerdictOfRow(t, pred, gt, k, f);
      VerdictOfRow(t, Rebuilt(t, pred, gt), gt, k, f);
      assert SameRow(t, pred, gt, k);
  }

  /** Scoring the skeleton changes no result exactly if it changes no verdict on a label row. */
  lemma SameResultsByRow(t: Text, pred: Invoice, gt: Invoice)
    requires Lawful(t)
    ensures Collected(Evaluated(t, Rebuilt(t, pred, gt), gt)) == Collected(Evaluated(t, pred, gt))
      <==> forall k :: 0 <= k < |gt.products| ==> SameRow(t, pred, gt, k)
  {
    var s := Rebuilt(t, pred, gt);
    if forall k :: 0 <= k < |gt.products| ==> SameRow(t, pred, gt, k) {
      EvaluatedOnLabels(t, pred, gt);
      EvaluatedOnLabels(t, s, gt);
      var refs := AllRefs(|gt.products|);
      forall ref | ref in refs
        ensures Verdict(t, AlignedInvoice(t, s, gt), gt, ref) == Verdict(t, AlignedInvoice(t, pred, gt), gt, ref)
      {
        SameVerdict(t, pred, gt, ref);
      }
      SameVerdictsSameResults(t, AlignedInvoice(t, s, gt), AlignedInvoice(t, pred, gt), gt, refs);
    } else {
      var k :| 0 <= k < |gt.products| && !SameRow(t, pred, gt, k);
      OtherRowOtherResult(t, pred, gt, k);
    }
  }

  lemma OtherRowOtherResult(t: Text, pred: Invoice, gt: Invoice, k: nat)
    requires k < |gt.products| && !SameRow(t, pred, gt, k)
    ensures Collected(Evaluated(t, Rebuilt(t, pred, gt), gt)) != Collected(Evaluated(t, pred, gt))
  {
    var s := Rebuilt(t, pred, gt);
    var x, a := Row(s.products, FirstChoices(t, s, gt)[k]), Row(pred.products, FirstChoices(t, pred, gt)[k]);
    var f :| f in PRODUCT_FIELDS && !SameVerdictOn(t, x, a, gt.products[k], f);
    VerdictOfRow(t, pred, gt, k, f);
    VerdictOfRow(t, s, gt, k, f);
    OtherVerdictOtherResult(t, s, pred, gt, k, f);
  }

  // ---- Where nothing is displaced ----

  /** Something in the row is right. */
  predicate SomethingRight(t: Text, row: Record, gt: Record) {
    exists f :: f in PRODUCT_FIELDS && Compare(t, Get(row, f), Get(gt, f), f) == Some(true)
  }

  /** If the own row of label row `k` does not score, nothing was right in what it had. */
  ghost predicate Quiet(t: Text, gts: seq<Record>, preds: seq<Record>, cs: seq<int>, ss: seq<Record>, k: nat)
    requires k < |gts| == |ss| == |cs| && -1 <= cs[k] < |preds|
  {
    Own(t, gts, ss, k) == 0 ==> !SomethingRight(t, Row(preds, cs[k]), gts[k])
  }

  /** When the skeleton of the report is aligned, label row `k` is content; and if it has lost its
      partner, nothing was right in it. */
  ghost predicate Settles(t: Text, gts: seq<Record>, preds: seq<Record>, cs: seq<int>, ss: seq<Record>, k: nat)
    requires k < |gts| == |ss| == |cs| && -1 <= cs[k] < |preds|
  {
    Content(t, gts, ss, k) && Quiet(t, gts, preds, cs, ss, k)
  }

  /** So it is for the first `n` label rows. */
  ghost predicate SettledTo(t: Text, gts: seq<Record>, preds: seq<Record>, cs: seq<int>, ss: seq<Record>, n: nat)
    requires n <= |gts| == |ss| == |cs| && forall i :: 0 <= i < |cs| ==> -1 <= cs[i] < |preds|
  {
    forall k :: 0 <= k < n ==> Settles(t, gts, preds, cs, ss, k)
  }

  ghost predicate Settled(t: Text, pred: Invoice, gt: Invoice) {
    var cs, ss := FirstChoices(t, pred, gt), Rebuilt(t, pred, gt).products;
    SettledTo(t, gt.products, pred.products, cs, ss, |gt.products|)
  }

  lemma NothingRightIsBlank(t: Text, a: Record, gt: Record, f: Field)
    requires f in PRODUCT_FIELDS && !SomethingRight(t, a, gt)
    ensures SameVerdictOn(t, map[], a, gt, f)
  {
  }

  /** The verdicts on what label row `k` takes, if it has its own row or nothing right before. */
  lemma SettledVerdict(t: Text, gts: seq<Record>, preds: seq<Record>, cs: seq<int>, ss: seq<Record>, k: nat, f: Field)
    requires Setting(t, gts, preds, cs, ss) && k < |gts| && Quiet(t, gts, preds, cs, ss, k) && f in PRODUCT_FIELDS
    ensures SameVerdictOn(t, Row(ss, Kept(t, gts, ss)[k]), Row(preds, cs[k]), gts[k], f)
  {
    var a := Row(preds, cs[k]);
    if Own(t, gts, ss, k) == 0 {
      NothingRightIsBlank(t, a, gts[k], f);
    } else {
      assert MarkedRow(t, a, gts[k], ss[k]);
      VerdictKept(t, Get(a, f), Get(gts[k], f), f);
    }
  }

  lemma SettledIsUndisplaced(t: Text, gts: seq<Record>, preds: seq<Record>, cs: seq<int>, ss: seq<Record>, n: nat)
    requires n <= |gts| == |ss| == |cs| && forall i :: 0 <= i < |cs| ==> -1 <= cs[i] < |preds|
    requires SettledTo(t, gts, preds, cs, ss, n)
    ensures Undisplaced(t, gts, ss, n)
  {
    forall k | 0 <= k < n ensures Content(t, gts, ss, k) {
      assert Settles(t, gts, preds, cs, ss, k);
    }
  }

  lemma SettledRow(t: Text, pred: Invoice, gt: Invoice, k: nat)
    requires Lawful(t) && Settled(t, pred, gt) && k < |gt.products|
    ensures SameRow(t, pred, gt, k)
  {
    var gts, cs, ss := gt.products, FirstChoices(t, pred, gt), Rebuilt(t, pred, gt).products;
    SettledIsUndisplaced(t, gts, pred.products, cs, ss, |gts|);
    SecondAlignmentExactly(t, gts, ss);
    RebuiltRows(t, pred, gt);
    assert Settles(t, gts, pred.products, cs, ss, k);
    forall f | f in PRODUCT_FIELDS
      ensures SameVerdictOn(t, Row(ss, Kept(t, gts, ss)[k]), Row(pred.products, cs[k]), gts[k], f)
    {
      SettledVerdict(t, gts, pred.products, cs, ss, k, f);
    }
  }

  /** If nothing is displaced and nothing right is lost, no result changes, whatever the label and the
      prediction hold. */
  lemma SettledScoresTheSame(t: Text, pred: Invoice, gt: Invoice)
    requires Lawful(t) && Settled(t, pred, gt)
    ensures Collected(Evaluated(t, Rebuilt(t, pred, gt), gt)) == Collected(Evaluated(t, pred, gt))
  {
    forall k | 0 <= k < |gt.products| ensures SameRow(t, pred, gt, k) {
      SettledRow(t, pred, gt, k);
    }
    SameResultsByRow(t, pred, gt);
  }

  // ---- Displacement shows ----

  lemma MarkedPlain(t: Text, pred: Record, gt: Record, s: Record)
    requires Lawful(t) && PricesPlain(t, gt) && MarkedRow(t, pred, gt, s)
    ensures PricesPlain(t, s)
  {
    ScoredFields();
    assert t.strip(t.strip(Get(pred, PRODUCT_UNIT_PRICE))) == t.strip(Get(pred, PRODUCT_UNIT_PRICE));
    assert t.strip(t.strip(Get(pred, PRODUCT_TOTAL_MONEY))) == t.strip(Get(pred, PRODUCT_TOTAL_MONEY));
  }

  /** A price that scores is a price that is right. */
  lemma ScoredPriceIsRight(t: Text, x: string, gt: string, f: Field)
    requires Lawful(t) && IsMoney(f) && !Blank(t, x) && !Blank(t, gt)
    requires t.Money(gt) != "" && t.Money(x) == t.Money(gt)
    ensures Compare(t, x, gt, f) == Some(true)
  {
    MoneyOfClean(t, x);
    MoneyOfClean(t, gt);
  }

  /** And so is a name. */
  lemma ScoredNameIsRight(t: Text, x: string, gt: string)
    requires Lawful(t) && t.Clean(gt) != "" && t.Clean(x) == t.Clean(gt)
    ensures Compare(t, x, gt, PRODUCT_NAME) == Some(true)
  {
    assert t.Clean("") == "";
    assert t.ratio(t.Clean(gt), t.Clean(gt)) == 1.0;
  }

  /** A row that gets the verdicts of the prediction scores no better than its skeleton. */
  lemma SameVerdictsNoBetterScore(t: Text, a: Record, gt: Record, s: Record, x: Record)
    requires Lawful(t) && PricesPlain(t, x) && PricesPlain(t, gt) && MarkedRow(t, a, gt, s)
    requires SameVerdictOn(t, x, a, gt, PRODUCT_UNIT_PRICE) && SameVerdictOn(t, x, a, gt, PRODUCT_TOTAL_MONEY)
    requires SameVerdictOn(t, x, a, gt, PRODUCT_NAME)
    ensures Score(t, gt, x) <= Score(t, gt, s)
  {
    ScoredFields();
    var price, total, name := Get(gt, PRODUCT_UNIT_PRICE), Get(gt, PRODUCT_TOTAL_MONEY), Get(gt, PRODUCT_NAME);
    if t.Money(price) != "" && t.Money(Get(x, PRODUCT_UNIT_PRICE)) == t.Money(price) {
      ScoredPriceIsRight(t, Get(x, PRODUCT_UNIT_PRICE), price, PRODUCT_UNIT_PRICE);
      assert Get(s, PRODUCT_UNIT_PRICE) == price;
    }
    if t.Money(total) != "" && t.Money(Get(x, PRODUCT_TOTAL_MONEY)) == t.Money(total) {
      ScoredPriceIsRight(t, Get(x, PRODUCT_TOTAL_MONEY), total, PRODUCT_TOTAL_MONEY);
      assert Get(s, PRODUCT_TOTAL_MONEY) == total;
    }
    if t.Clean(name) != "" && t.Clean(Get(x, PRODUCT_NAME)) == t.Clean(name) {
      ScoredNameIsRight(t, Get(x, PRODUCT_NAME), name);
      assert Get(s, PRODUCT_NAME) == name;
    }
  }

  lemma DifferingField(t: Text, a: Record, gt: Record, s: Record, x: Record) returns (f: Field)
    requires Lawful(t) && PricesPlain(t, x) && PricesPlain(t, gt) && MarkedRow(t, a, gt, s)
    requires Score(t, gt, x) > Score(t, gt, s)
    ensures f in PRODUCT_FIELDS && !SameVerdictOn(t, x, a, gt, f)
  {
    ScoredFields();
    if !SameVerdictOn(t, x, a, gt, PRODUCT_UNIT_PRICE) {
      return PRODUCT_UNIT_PRICE;
    }
    if !SameVerdictOn(t, x, a, gt, PRODUCT_TOTAL_MONEY) {
      return PRODUCT_TOTAL_MONEY;
    }
    if SameVerdictOn(t, x, a, gt, PRODUCT_NAME) {
      SameVerdictsNoBetterScore(t, a, gt, s, x);
    }
    return PRODUCT_NAME;
  }

  lemma PlainLosesNothing(t: Text, gts: seq<Record>, preds: seq<Record>, cs: seq<int>, ss: seq<Record>, k: nat)
    requires Setting(t, gts, preds, cs, ss) && AllPlain(t, gts) && AllPlain(t, preds) && k < |gts|
    ensures Own(t, gts, ss, k) == 0 <==> cs[k] == -1
  {
    if cs[k] == -1 {
      LeftOverScoresNothing(t, gts, preds, cs, ss, k, gts[k]);
    } else {
      AlignedScores(t, gts, preds, cs, ss, k);
    }
  }

  /** A later label row scores the row of the skeleton that label row `c` has lost without anything
      right in it exactly as high as its own. */
  ghost predicate LossTies(t: Text, gts: seq<Record>, preds: seq<Record>, cs: seq<int>, ss: seq<Record>,
                           k: nat, c: nat)
    requires c < k < |gts| == |ss| == |cs| && -1 <= cs[c] < |preds|
  {
    Own(t, gts, ss, c) == 0 && Quiet(t, gts, preds, cs, ss, c) && Ties(t, gts, ss, k, c)
  }

  ghost predicate NoLossTies(t: Text, gts: seq<Record>, preds: seq<Record>, cs: seq<int>, ss: seq<Record>)
    requires |cs| == |gts| == |ss| && forall i :: 0 <= i < |cs| ==> -1 <= cs[i] < |preds|
  {
    forall c, k :: 0 <= c < k < |gts| ==> !LossTies(t, gts, preds, cs, ss, k, c)
  }

  lemma SettledOneMore(t: Text, gts: seq<Record>, preds: seq<Record>, cs: seq<int>, ss: seq<Record>, n: nat)
    requires n < |gts| == |ss| == |cs| && forall i :: 0 <= i < |cs| ==> -1 <= cs[i] < |preds|
    ensures SettledTo(t, gts, preds, cs, ss, n + 1)
       <==> SettledTo(t, gts, preds, cs, ss, n) && Settles(t, gts, preds, cs, ss, n)
  {
  }

  lemma {:induction false} FirstUnsettled(t: Text, gts: seq<Record>, preds: seq<Record>, cs: seq<int>,
                                          ss: seq<Record>, n: nat) returns (k: nat)
    requires n <= |gts| == |cs| == |ss| && forall i :: 0 <= i < |cs| ==> -1 <= cs[i] < |preds|
    requires !SettledTo(t, gts, preds, cs, ss, n)
    ensures k < n && !Settles(t, gts, preds, cs, ss, k) && SettledTo(t, gts, preds, cs, ss, k)
  {
    SettledOneMore(t, gts, preds, cs, ss, n - 1);
    if SettledTo(t, gts, preds, cs, ss, n - 1) {
      k := n - 1;
    } else {
      k := FirstUnsettled(t, gts, preds, cs, ss, n - 1);
    }
  }

  /** Where something right is lost, that shows. */
  lemma LossChangesVerdict(t: Text, a: Record, gt: Record) returns (f: Field)
    requires SomethingRight(t, a, gt)
    ensures f in PRODUCT_FIELDS && !SameVerdictOn(t, map[], a, gt, f)
  {
    f :| f in PRODUCT_FIELDS && Compare(t, Get(a, f), Get(gt, f), f) == Some(true);
  }

  lemma ContentTakesOwn(t: Text, gts: seq<Record>, ss: seq<Record>, k: nat)
    requires k < |gts| == |ss| && Undisplaced(t, gts, ss, k) && Content(t, gts, ss, k)
    ensures Choices(t, gts, ss, |gts|)[k] == Kept(t, gts, ss)[k]
  {
    assert Undisplaced(t, gts, ss, k + 1) by {
      forall i | 0 <= i < k + 1 ensures Content(t, gts, ss, i) {
      }
    }
    SecondAlignment(t, gts, ss, k + 1);
    ChoicesPrefix(t, gts, ss, |gts|, k + 1);
    assert Choices(t, gts, ss, |gts|)[..k + 1][k] == Kept(t, gts, ss)[..k + 1][k];
  }

  /** The row taken by the first label row that is not content is a better one, or ties with its own. */
  lemma TheftIsNoTie(t: Text, gts: seq<Record>, preds: seq<Record>, cs: seq<int>, ss: seq<Record>, k: nat)
    returns (c: nat)
    requires Setting(t, gts, preds, cs, ss) && NoLossTies(t, gts, preds, cs, ss)
    requires k < |gts| && SettledTo(t, gts, preds, cs, ss, k) && !Content(t, gts, ss, k)
    ensures c == Choices(t, gts, ss, |gts|)[k] && c < |ss| && Steals(t, gts, ss, k, c)
  {
    SettledIsUndisplaced(t, gts, preds, cs, ss, k);
    FirstTheft(t, gts, ss, k);
    c := Choices(t, gts, ss, |gts|)[k];
    if c < k {
      assert Settles(t, gts, preds, cs, ss, c) && !LossTies(t, gts, preds, cs, ss, k, c);
    }
  }

  /** Where a better row is taken, some verdict changes. */
  lemma TheftChangesVerdict(t: Text, gts: seq<Record>, preds: seq<Record>, cs: seq<int>, ss: seq<Record>,
                            k: nat, c: nat) returns (f: Field)
    requires Setting(t, gts, preds, cs, ss) && AllPlain(t, gts) && k < |gts| && c < |ss| && Steals(t, gts, ss, k, c)
    ensures f in PRODUCT_FIELDS && !SameVerdictOn(t, ss[c], Row(preds, cs[k]), gts[k], f)
  {
    assert MarkedRow(t, Row(preds, cs[c]), gts[c], ss[c]) && PricesPlain(t, gts[c]) && PricesPlain(t, gts[k]);
    MarkedPlain(t, Row(preds, cs[c]), gts[c], ss[c]);
    assert MarkedRow(t, Row(preds, cs[k]), gts[k], ss[k]);
    f := DifferingField(t, Row(preds, cs[k]), gts[k], ss[k], ss[c]);
  }

  lemma UnsettledChangesVerdict(t: Text, gts: seq<Record>, preds: seq<Record>, cs: seq<int>, ss: seq<Record>, k: nat)
    returns (f: Field)
    requires Setting(t, gts, preds, cs, ss) && AllPlain(t, gts) && NoLossTies(t, gts, preds, cs, ss)
    requires k < |gts| && SettledTo(t, gts, preds, cs, ss, k) && !Settles(t, gts, preds, cs, ss, k)
    ensures f in PRODUCT_FIELDS
    ensures !SameVerdictOn(t, Row(ss, Choices(t, gts, ss, |gts|)[k]), Row(preds, cs[k]), gts[k], f)
  {
    if Content(t, gts, ss, k) {
      SettledIsUndisplaced(t, gts, preds, cs, ss, k);
      ContentTakesOwn(t, gts, ss, k);
      f := LossChangesVerdict(t, Row(preds, cs[k]), gts[k]);
    } else {
      var c := TheftIsNoTie(t, gts, preds, cs, ss, k);
      f := TheftChangesVerdict(t, gts, preds, cs, ss, k, c);
    }
  }

  lemma UnsettledShows(t: Text, pred: Invoice, gt: Invoice)
    requires Lawful(t) && AllPlain(t, gt.products) && !Settled(t, pred, gt)
    requires NoLossTies(t, gt.products, pred.products, FirstChoices(t, pred, gt), Rebuilt(t, pred, gt).products)
    ensures Collected(Evaluated(t, Rebuilt(t, pred, gt), gt)) != Collected(Evaluated(t, pred, gt))
  {
    var cs, ss := FirstChoices(t, pred, gt), Rebuilt(t, pred, gt).products;
    RebuiltRows(t, pred, gt);
    var k := FirstUnsettled(t, gt.products, pred.products, cs, ss, |gt.products|);
    var f := UnsettledChangesVerdict(t, gt.products, pred.products, cs, ss, k);
    assert !SameRow(t, pred, gt, k);
    OtherRowOtherResult(t, pred, gt, k);
  }

  // ---- The round trip, exactly ----

  /** main's promise is that scoring the skeleton in place of the prediction changes no result. It is
      kept exactly if nothing is displaced and nothing right is lost, provided that no price of the
      label is blank text, and that no row of the skeleton lost with nothing right in it ties with the
      own row of a later label row. */
  lemma SkeletonScoresTheSameExactly(t: Text, pred: Invoice, gt: Invoice)
    requires Lawful(t) && AllPlain(t, gt.products)
    requires NoLossTies(t, gt.products, pred.products, FirstChoices(t, pred, gt), Rebuilt(t, pred, gt).products)
    ensures var s := Skeleton(Failures(Evaluated(t, pred, gt)), gt);
      Collected(Evaluated(t, s, gt)) == Collected(Evaluated(t, pred, gt)) <==> Settled(t, pred, gt)
  {
    if Settled(t, pred, gt) {
      SettledScoresTheSame(t, pred, gt);
    } else {
      UnsettledShows(t, pred, gt);
    }
  }

  /** Label row `k` scores the row of the skeleton of no later label row higher than its own. */
  ghost predicate StealsNone(t: Text, gts: seq<Record>, ss: seq<Record>, k: nat)
    requires k < |gts| == |ss|
  {
    forall j :: k < j < |ss| ==> !Steals(t, gts, ss, k, j)
  }

  ghost predicate NoTheft(t: Text, gts: seq<Record>, ss: seq<Record>)
    requires |gts| == |ss|
  {
    forall k :: 0 <= k < |gts| ==> StealsNone(t, gts, ss, k)
  }

  lemma PlainNoLossTies(t: Text, gts: seq<Record>, preds: seq<Record>, cs: seq<int>, ss: seq<Record>)
    requires Setting(t, gts, preds, cs, ss) && AllPlain(t, gts) && AllPlain(t, preds)
    ensures NoLossTies(t, gts, preds, cs, ss)
  {
    forall c, k | 0 <= c < k < |gts| ensures !LossTies(t, gts, preds, cs, ss, k, c) {
      PlainLosesNothing(t, gts, preds, cs, ss, c);
      if cs[c] == -1 {
        LeftOverScoresNothing(t, gts, preds, cs, ss, c, gts[k]);
      }
    }
  }

  lemma PlainContent(t: Text, gts: seq<Record>, preds: seq<Record>, cs: seq<int>, ss: seq<Record>, k: nat)
    requires Setting(t, gts, preds, cs, ss) && AllPlain(t, gts) && AllPlain(t, preds) && k < |gts|
    ensures Settles(t, gts, preds, cs, ss, k) <==> StealsNone(t, gts, ss, k)
  {
    PlainQuiet(t, gts, preds, cs, ss, k);
    forall j | 0 <= j < k ensures !Threatens(t, gts, ss, k, j) {
      PlainFreeIsBlank(t, gts, preds, cs, ss, k, j);
    }
    LaterThreats(t, gts, ss, k);
  }

  lemma LaterThreats(t: Text, gts: seq<Record>, ss: seq<Record>, k: nat)
    requires k < |gts| == |ss| && forall j :: 0 <= j < k ==> !Threatens(t, gts, ss, k, j)
    ensures Content(t, gts, ss, k) <==> StealsNone(t, gts, ss, k)
  {
    forall j | k < j < |ss| ensures Threatens(t, gts, ss, k, j) <==> Steals(t, gts, ss, k, j) {
    }
  }

  lemma PlainQuiet(t: Text, gts: seq<Record>, preds: seq<Record>, cs: seq<int>, ss: seq<Record>, k: nat)
    requires Setting(t, gts, preds, cs, ss) && AllPlain(t, gts) && AllPlain(t, preds) && k < |gts|
    ensures Quiet(t, gts, preds, cs, ss, k)
  {
    PlainLosesNothing(t, gts, preds, cs, ss, k);
  }

  lemma PlainFreeIsBlank(t: Text, gts: seq<Record>, preds: seq<Record>, cs: seq<int>, ss: seq<Record>, k: nat, j: nat)
    requires Setting(t, gts, preds, cs, ss) && AllPlain(t, gts) && AllPlain(t, preds)
    requires j < k < |gts|
    ensures !Threatens(t, gts, ss, k, j)
  {
    PlainLosesNothing(t, gts, preds, cs, ss, j);
    if cs[j] == -1 {
      LeftOverScoresNothing(t, gts, preds, cs, ss, j, gts[k]);
    }
  }

  lemma PlainSettles(t: Text, gts: seq<Record>, preds: seq<Record>, cs: seq<int>, ss: seq<Record>)
    requires Setting(t, gts, preds, cs, ss) && AllPlain(t, gts) && AllPlain(t, preds)
    ensures SettledTo(t, gts, preds, cs, ss, |gts|) <==> NoTheft(t, gts, ss)
  {
    forall k | 0 <= k < |gts|
      ensures Settles(t, gts, preds, cs, ss, k) <==> StealsNone(t, gts, ss, k)
    {
      PlainContent(t, gts, preds, cs, ss, k);
    }
  }

  lemma PlainSettled(t: Text, pred: Invoice, gt: Invoice)
    requires Lawful(t) && AllPlain(t, gt.products) && AllPlain(t, pred.products)
    ensures Settled(t, pred, gt) <==> NoTheft(t, gt.products, Rebuilt(t, pred, gt).products)
  {
    RebuiltRows(t, pred, gt);
    PlainSettles(t, gt.products, pred.products, FirstChoices(t, pred, gt), Rebuilt(t, pred, gt).products);
  }

  /** If no price is blank text at all, it is kept exactly if no row is stolen. */
  lemma PlainSkeletonScoresTheSameExactly(t: Text, pred: Invoice, gt: Invoice)
    requires Lawful(t) && AllPlain(t, gt.products) && AllPlain(t, pred.products)
    ensures var s := Skeleton(Failures(Evaluated(t, pred, gt)), gt);
      Collected(Evaluated(t, s, gt)) == Collected(Evaluated(t, pred, gt))
      <==> NoTheft(t, gt.products, Rebuilt(t, pred, gt).products)
  {
    RebuiltRows(t, pred, gt);
    PlainNoLossTies(t, gt.products, pred.products, FirstChoices(t, pred, gt), Rebuilt(t, pred, gt).products);
    PlainSettled(t, pred, gt);
    SkeletonScoresTheSameExactly(t, pred, gt);
  }

  /** So it is kept whatever the prediction, if product names tell the priced rows of the label apart. */
  lemma SkeletonScoresTheSame(t: Text, pred: Invoice, gt: Invoice)
    requires Lawful(t) && AllPlain(t, gt.products) && AllPlain(t, pred.products)
    requires NamesDistinguish(t, gt.products)
    ensures var s := Skeleton(Failures(Evaluated(t, pred, gt)), gt);
      Collected(Evaluated(t, s, gt)) == Collected(Evaluated(t, pred, gt))
  {
    PlainSkeletonScoresTheSameExactly(t, pred, gt);
    RebuiltRows(t, pred, gt);
    var cs, ss := FirstChoices(t, pred, gt), Rebuilt(t, pred, gt).products;
    forall k | 0 <= k < |gt.products| ensures StealsNone(t, gt.products, ss, k) {
      forall j | k < j < |ss| ensures !Steals(t, gt.products, ss, k, j) {
        NamesPreventTheft(t, gt.products, pred.products, cs, ss, k, j);
      }
    }
  }
}
