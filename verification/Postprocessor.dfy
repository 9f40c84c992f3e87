/** src/pipeline/postprocessor.py: what a second postprocessing of a result would change. */
module Postprocessor {
  import opened Common
  import opened Schemas
  import opened Money
  import W = Whitelist

  /** float(text), as far as it matters: no number; an infinity or NaN, on which int() raises;
      an integral value; or any other value, with its str(). */
  datatype Number = NotANumber | NonFinite | Integral(n: int) | Fraction(text: string)

  /** The library functions, and the index's two match functions. */
  datatype Env = Env(
    chars: Chars,
    nfc: string -> string,
    lower: string -> string,
    parse: string -> Number,
    store: string -> string,
    product: string -> string)
  {
    function Trim(s: string): string {
      Strip(s, chars.isSpace)
    }
  }

  // ---- One field ----

  function NormalizeUnicode(e: Env, text: string): string {
    if text == "" then "" else e.Trim(e.nfc(text))
  }

  function NormalizeType(e: Env, text: string): string {
    if text == "" then "" else e.lower(e.Trim(text))
  }

  function NormalizeTime(e: Env, text: string): string {
    if text == "" then "" else e.Trim(text)
  }

  predicate DigitsAt(e: Env, s: string, from: nat, to: nat)
    requires from <= to <= |s|
  {
    forall i :: from <= i < to ==> e.chars.isDigit(s[i])
  }

  /** Two digits, two digits and four digits, set apart. */
  predicate DayFirst(e: Env, s: string, separator: char) {
    |s| == 10 && s[2] == s[5] == separator && DigitsAt(e, s, 0, 2) && DigitsAt(e, s, 3, 5) && DigitsAt(e, s, 6, 10)
  }

  predicate YearFirst(e: Env, s: string) {
    |s| == 10 && s[4] == s[7] == '-' && DigitsAt(e, s, 0, 4) && DigitsAt(e, s, 5, 7) && DigitsAt(e, s, 8, 10)
  }

  function NormalizeDate(e: Env, text: string): string {
    if text == "" then ""
    else
      var s := e.Trim(text);
      if DayFirst(e, s, '/') then s
      else if DayFirst(e, s, '-') || DayFirst(e, s, '.') then s[..2] + "/" + s[3..5] + "/" + s[6..]
      else if YearFirst(e, s) then s[8..] + "/" + s[5..7] + "/" + s[..4]
      else s
  }

  function Dotted(s: string): string {
    seq(|s|, i requires 0 <= i < |s| => if s[i] == ',' then '.' else s[i])
  }

  /** re.sub(r"[^\\d.]", "", s) */
  function Kept(e: Env, s: string): string {
    Without(s, Dropped(e))
  }

  function Dropped(e: Env): char -> bool {
    c => !e.chars.isDigit(c) && c != '.'
  }

  /** None if it raises. */
  function NormalizeQuantity(e: Env, text: string): Option<string> {
    if text == "" then Some("")
    else
      var s := e.Trim(text);
      match e.parse(Dotted(s))
      case NotANumber => Some(Kept(e, s))
      case NonFinite => None
      case Integral(n) => Some(Plain(n))
      case Fraction(shown) => Some(shown)
  }

  // ---- Stripping ----

  lemma {:induction false} LeftStripped(s: string, trim: char -> bool)
    ensures LeftStrip(s, trim) != "" ==> !trim(LeftStrip(s, trim)[0])
  {
    if s != "" && trim(s[0]) {
      LeftStripped(s[1..], trim);
    }
  }

  lemma {:induction false} RightStripped(s: string, trim: char -> bool)
    ensures var r := RightStrip(s, trim); r <= s && (r != "" ==> !trim(r[|r| - 1]))
  {
    if s != "" && trim(s[|s| - 1]) {
      RightStripped(s[..|s| - 1], trim);
    }
  }

  predicate Stripped(s: string, trim: char -> bool) {
    s == "" || (!trim(s[0]) && !trim(s[|s| - 1]))
  }

  lemma StripStripped(s: string, trim: char -> bool)
    ensures Stripped(Strip(s, trim), trim)
    ensures Stripped(s, trim) ==> Strip(s, trim) == s
  {
    LeftStripped(s, trim);
    RightStripped(LeftStrip(s, trim), trim);
  }

  // ---- Dates ----

  lemma DayFirstStripped(e: Env, s: string, separator: char)
    requires Lawful(e.chars) && DayFirst(e, s, separator)
    ensures Stripped(s, e.chars.isSpace)
  {
    assert e.chars.isDigit(s[0]) && e.chars.isDigit(s[9]);
  }

  /** The four ways to write a date all come to day, month and year between slashes. */
  lemma DatesFanIn(e: Env, day: string, month: string, year: string)
    requires Lawful(e.chars) && |day| == |month| == 2 && |year| == 4
    requires DigitsAt(e, day, 0, 2) && DigitsAt(e, month, 0, 2) && DigitsAt(e, year, 0, 4)
    ensures var slashed := day + "/" + month + "/" + year;
      && NormalizeDate(e, slashed) == slashed
      && NormalizeDate(e, day + "-" + month + "-" + year) == slashed
      && NormalizeDate(e, day + "." + month + "." + year) == slashed
      && NormalizeDate(e, year + "-" + month + "-" + day) == slashed
  {
    DayMonthYear(e, day, month, year, "/");
    DayMonthYear(e, day, month, year, "-");
    DayMonthYear(e, day, month, year, ".");
    YearMonthDay(e, day, month, year);
  }

  lemma DayMonthYear(e: Env, day: string, month: string, year: string, separator: string)
    requires Lawful(e.chars) && |day| == |month| == 2 && |year| == 4
    requires DigitsAt(e, day, 0, 2) && DigitsAt(e, month, 0, 2) && DigitsAt(e, year, 0, 4)
    requires separator == "/" || separator == "-" || separator == "."
    ensures NormalizeDate(e, day + separator + month + separator + year) == day + "/" + month + "/" + year
  {
    var s := day + separator + month + separator + year;
    assert s[..2] == day && s[3..5] == month && s[6..] == year;
    assert DayFirst(e, s, separator[0]);
    DayFirstStripped(e, s, separator[0]);
    StripStripped(s, e.chars.isSpace);
  }

  lemma YearMonthDay(e: Env, day: string, month: string, year: string)
    requires Lawful(e.chars) && |day| == |month| == 2 && |year| == 4
    requires DigitsAt(e, day, 0, 2) && DigitsAt(e, month, 0, 2) && DigitsAt(e, year, 0, 4)
    ensures NormalizeDate(e, year + "-" + month + "-" + day) == day + "/" + month + "/" + year
  {
    var s := year + "-" + month + "-" + day;
    assert s[..4] == year && s[5..7] == month && s[8..] == day;
    assert YearFirst(e, s);
    assert e.chars.isDigit(s[0]) && e.chars.isDigit(s[9]) && e.chars.isDigit(s[2]);
    StripStripped(s, e.chars.isSpace);
  }

  /** `s` is the date in one of the four forms. */
  predicate WritesDate(s: string, day: string, month: string, year: string) {
    || s == day + "/" + month + "/" + year || s == day + "-" + month + "-" + year
    || s == day + "." + month + "." + year || s == year + "-" + month + "-" + day
  }

  ghost predicate IsDate(e: Env, s: string) {
    exists day, month, year :: |day| == |month| == 2 && |year| == 4 && WritesDate(s, day, month, year)
      && DigitsAt(e, day, 0, 2) && DigitsAt(e, month, 0, 2) && DigitsAt(e, year, 0, 4)
  }

  lemma DayFirstIsDate(e: Env, s: string, separator: char)
    requires DayFirst(e, s, separator) && separator in {'/', '-', '.'}
    ensures IsDate(e, s)
  {
    assert s == s[..2] + [separator] + s[3..5] + [separator] + s[6..];
    assert WritesDate(s, s[..2], s[3..5], s[6..]);
  }

  /** Any other text is only stripped. */
  lemma OtherDatesStripped(e: Env, text: string)
    requires !IsDate(e, e.Trim(text))
    ensures NormalizeDate(e, text) == if text == "" then "" else e.Trim(text)
  {
    var s := e.Trim(text);
    if DayFirst(e, s, '-') {
      DayFirstIsDate(e, s, '-');
    } else if DayFirst(e, s, '.') {
      DayFirstIsDate(e, s, '.');
    } else if YearFirst(e, s) {
      assert s == s[..4] + "-" + s[5..7] + "-" + s[8..];
      assert WritesDate(s, s[8..], s[5..7], s[..4]);
    }
  }

  lemma DateIsIdempotent(e: Env, text: string)
    requires Lawful(e.chars)
    ensures NormalizeDate(e, NormalizeDate(e, text)) == NormalizeDate(e, text)
  {
    var s, r := e.Trim(text), NormalizeDate(e, text);
    StripStripped(text, e.chars.isSpace);
    StripStripped(s, e.chars.isSpace);
    if text != "" && r != s {
      assert DayFirst(e, r, '/');
      DayFirstStripped(e, r, '/');
      StripStripped(r, e.chars.isSpace);
    }
  }

  // ---- Quantities ----

  /** float() reads back what str() printed of a value that float() had read. */
  ghost predicate ParseLawful(e: Env) {
    forall x :: match e.parse(x)
      case Integral(n) => e.parse(Plain(n)) == e.parse(x)
      case Fraction(shown) =>
        && shown != "" && Stripped(shown, e.chars.isSpace) && Dotted(shown) == shown
        && e.parse(shown) == e.parse(x)
      case _ => true
  }

  lemma PlainUndressed(e: Env, n: int)
    requires Lawful(e.chars)
    ensures Plain(n) != "" && Dotted(Plain(n)) == Plain(n) && Stripped(Plain(n), e.chars.isSpace)
  {
    var s := Plain(n);
    forall i | 0 <= i < |s| ensures s[i] != ',' && !e.chars.isSpace(s[i]) {
      if s[i] == '-' {
        assert IsBracket(s[i]);
      } else {
        assert s[i] in Decimal(if n < 0 then -n else n);
        assert e.chars.isDigit(s[i]);
      }
    }
  }

  lemma KeptUndressed(e: Env, s: string)
    requires Lawful(e.chars)
    ensures var k := Kept(e, s); Dotted(k) == k && Stripped(k, e.chars.isSpace) && Kept(e, k) == k
  {
    var k := Kept(e, s);
    WithoutDrops(s, Dropped(e));
    WithoutNone(k, Dropped(e));
    forall i | 0 <= i < |k| ensures k[i] != ',' && !e.chars.isSpace(k[i]) {
      assert k[i] in k;
      assert IsSeparator(k[i]) || e.chars.isDigit(k[i]);
      assert IsSeparator(',');
    }
  }

  /** A quantity that did not parse, so that only its digits and dots are kept, and these do parse,
      as something that is printed otherwise. */
  predicate Unsettled(e: Env, text: string) {
    var s := e.Trim(text);
    text != "" && e.parse(Dotted(s)).NotANumber? && Kept(e, s) != "" &&
      match e.parse(Kept(e, s))
      case NotANumber => false
      case NonFinite => true
      case Integral(n) => Plain(n) != Kept(e, s)
      case Fraction(shown) => shown != Kept(e, s)
  }

  /** Quantities are the one field whose normal form need not be stable, and exactly these are not. */
  lemma QuantityStableExactly(e: Env, text: string)
    requires Lawful(e.chars) && ParseLawful(e) && NormalizeQuantity(e, text).Some?
    ensures var q := NormalizeQuantity(e, text).value; NormalizeQuantity(e, q) == Some(q) <==> !Unsettled(e, text)
  {
    if text != "" {
      var s := e.Trim(text);
      var q := NormalizeQuantity(e, text).value;
      match e.parse(Dotted(s)) {
        case NotANumber =>
          KeptUndressed(e, s);
        case Integral(n) =>
          PlainUndressed(e, n);
        case Fraction(shown) =>
          assert e.parse(shown) == e.parse(Dotted(s));
      }
      StripStripped(q, e.chars.isSpace);
    }
  }

  /** "10.000kg" comes to "10.000", and that to "10". */
  lemma TenKilos(e: Env)
    requires Lawful(e.chars) && !e.chars.isDigit('k') && !e.chars.isDigit('g') && !e.chars.isSpace('g')
    requires e.parse("10.000kg") == NotANumber && e.parse("10.000") == Integral(10)
    ensures NormalizeQuantity(e, "10.000kg") == Some("10.000") && NormalizeQuantity(e, "10.000") == Some("10")
  {
    TenKept(e);
    StripStripped("10.000kg", e.chars.isSpace);
    StripStripped("10.000", e.chars.isSpace);
    assert e.chars.isDigit('1') && e.chars.isDigit('0');
    assert Dotted("10.000kg") == "10.000kg" && Dotted("10.000") == "10.000";
    assert DigitChar(1) == '1' && DigitChar(0) == '0';
    assert Decimal(1) == "1";
    assert Plain(10) == Decimal(1) + "0" == "10";
    assert e.Trim("10.000") == "10.000";
  }

  lemma TenKept(e: Env)
    requires Lawful(e.chars) && !e.chars.isDigit('k') && !e.chars.isDigit('g')
    ensures Kept(e, "10.000kg") == "10.000"
  {
    assert "10.000kg" == "10.000" + "kg";
    WithoutAppend("10.000", "kg", Dropped(e));
    WithoutNone("10.000", Dropped(e));
    WithoutAll("kg", Dropped(e));
  }

  // ---- A result ----

  function NormalizeProduct(e: Env, p: Product): Option<Product> {
    var quantity := NormalizeQuantity(e, p.productQuantity);
    if quantity.None? then None
    else Some(Product(
      NormalizeUnicode(e, p.productId),
      e.product(p.productName),
      NormalizeMoney(e.chars, p.productUnitPrice),
      quantity.value,
      NormalizeMoney(e.chars, p.productDiscountMoney),
      NormalizeMoney(e.chars, p.productTotalMoney)))
  }

  function NormalizeProducts(e: Env, ps: seq<Product>): (r: Option<seq<Product>>)
    ensures r.Some? ==> |r.value| == |ps|
    ensures r.Some? ==> forall i :: 0 <= i < |ps| ==> NormalizeProduct(e, ps[i]) == Some(r.value[i])
  {
    if ps == [] then Some([])
    else
      var before, p := NormalizeProducts(e, ps[..|ps| - 1]), NormalizeProduct(e, ps[|ps| - 1]);
      if before.None? || p.None? then None else Some(before.value + [p.value])
  }

  lemma {:induction false} ProductsStable(e: Env, ps: seq<Product>)
    ensures NormalizeProducts(e, ps) == Some(ps)
       <==> forall i :: 0 <= i < |ps| ==> NormalizeProduct(e, ps[i]) == Some(ps[i])
  {
    if ps == [] {
    } else {
      var init := ps[..|ps| - 1];
      ProductsStable(e, init);
      assert ps == init + [ps[|ps| - 1]];
    }
  }

  function Postprocess(e: Env, result: InvoiceResult): Option<InvoiceResult> {
    var products := NormalizeProducts(e, result.products);
    if products.None? then None
    else Some(InvoiceResult(
      e.store(result.name),
      NormalizeType(e, result.kind),
      NormalizeDate(e, result.date),
      NormalizeTime(e, result.time),
      NormalizeUnicode(e, result.posId),
      NormalizeUnicode(e, result.receiptNumber),
      NormalizeUnicode(e, result.cashier),
      NormalizeMoney(e.chars, result.totalMoney),
      NormalizeUnicode(e, result.barcode),
      products.value))
  }

  /** Both matches answer as a scan of their lists would, and the lists are in normal form. */
  ghost predicate Indexed(e: Env, m: W.Matcher, stores: seq<string>, products: seq<string>) {
    && W.Lawful(m) && W.Normalised(m, stores) && W.Normalised(m, products)
    && (forall x :: W.Scanned(m, stores, W.STORE, x, e.store(x)))
    && (forall x :: W.Scanned(m, products, W.PRODUCT, x, e.product(x)))
  }

  /** NFC and lower-casing are stable under the strip that goes with them. */
  ghost predicate TextLawful(e: Env) {
    && Lawful(e.chars)
    && (forall x :: e.nfc(e.Trim(e.nfc(x))) == e.Trim(e.nfc(x)))
    && (forall x :: e.lower(e.Trim(e.lower(e.Trim(x)))) == e.lower(e.Trim(x)))
  }

  // ---- Field by field ----

  predicate Cleaned(e: Env, raw: string, final: string) {
    final == if raw == "" then "" else e.Trim(e.nfc(raw))
  }

  /** A quantity that parses comes out as a text that parses to the same value, an integer as its plain
      digits; one that does not comes out as its digits and dots. */
  ghost predicate Counted(e: Env, raw: string, final: string) {
    var value := e.parse(Dotted(e.Trim(raw)));
    if raw == "" then final == ""
    else if value.NotANumber? then final == Without(raw, Dropped(e))
    else e.parse(final) == value && (value.Integral? ==> final == Plain(value.n))
  }

  lemma QuantityKeepsValue(e: Env, raw: string)
    requires Lawful(e.chars) && ParseLawful(e) && NormalizeQuantity(e, raw).Some?
    ensures Counted(e, raw, NormalizeQuantity(e, raw).value)
  {
    if raw != "" {
      WithoutStrip(raw, e.chars.isSpace, Dropped(e));
      assert e.parse(Dotted(e.Trim(raw))) == e.parse(Dotted(e.Trim(raw)));
    }
  }

  /** What becomes of one product: each of its fields comes from the field of the same name, an amount
      as its sign and digits, the name as a scan of the list answers. */
  ghost predicate ProductFields(e: Env, m: W.Matcher, products: seq<string>, raw: Product, final: Product) {
    && Cleaned(e, raw.productId, final.productId)
    && W.Scanned(m, products, W.PRODUCT, raw.productName, final.productName)
    && final.productUnitPrice == Signed(e.chars, raw.productUnitPrice)
    && Counted(e, raw.productQuantity, final.productQuantity)
    && final.productDiscountMoney == Signed(e.chars, raw.productDiscountMoney)
    && final.productTotalMoney == Signed(e.chars, raw.productTotalMoney)
  }

  lemma ProductFieldByField(e: Env, m: W.Matcher, stores: seq<string>, products: seq<string>, raw: Product)
    requires Lawful(e.chars) && ParseLawful(e) && Indexed(e, m, stores, products) && NormalizeProduct(e, raw).Some?
    ensures ProductFields(e, m, products, raw, NormalizeProduct(e, raw).value)
  {
    MoneyIsSignAndDigits(e.chars, raw.productUnitPrice);
    MoneyIsSignAndDigits(e.chars, raw.productDiscountMoney);
    MoneyIsSignAndDigits(e.chars, raw.productTotalMoney);
    QuantityKeepsValue(e, raw.productQuantity);
  }

  /** And of a whole result: its products one by one and in order, the store name as a scan answers, the
      kind in lower case, the date in its one form. */
  lemma PostprocessFieldByField(e: Env, m: W.Matcher, stores: seq<string>, products: seq<string>, raw: InvoiceResult)
    requires Lawful(e.chars) && ParseLawful(e) && Indexed(e, m, stores, products) && Postprocess(e, raw).Some?
    ensures var final := Postprocess(e, raw).value;
      && W.Scanned(m, stores, W.STORE, raw.name, final.name)
      && final.kind == (if raw.kind == "" then "" else e.lower(e.Trim(raw.kind)))
      && final.date == NormalizeDate(e, raw.date)
      && final.time == (if raw.time == "" then "" else e.Trim(raw.time))
      && Cleaned(e, raw.posId, final.posId) && Cleaned(e, raw.receiptNumber, final.receiptNumber)
      && Cleaned(e, raw.cashier, final.cashier) && Cleaned(e, raw.barcode, final.barcode)
      && final.totalMoney == Signed(e.chars, raw.totalMoney)
      && |final.products| == |raw.products|
      && forall i :: 0 <= i < |raw.products| ==> ProductFields(e, m, products, raw.products[i], final.products[i])
  {
    MoneyIsSignAndDigits(e.chars, raw.totalMoney);
    var finals := Postprocess(e, raw).value.products;
    forall i | 0 <= i < |raw.products| ensures ProductFields(e, m, products, raw.products[i], finals[i]) {
      assert NormalizeProduct(e, raw.products[i]) == Some(finals[i]);
      ProductFieldByField(e, m, stores, products, raw.products[i]);
    }
  }

  // ---- A second time ----

  lemma TextFieldsStable(e: Env, text: string)
    requires TextLawful(e)
    ensures NormalizeUnicode(e, NormalizeUnicode(e, text)) == NormalizeUnicode(e, text)
    ensures NormalizeType(e, NormalizeType(e, text)) == NormalizeType(e, text)
    ensures NormalizeTime(e, NormalizeTime(e, text)) == NormalizeTime(e, text)
    ensures NormalizeMoney(e.chars, NormalizeMoney(e.chars, text)) == NormalizeMoney(e.chars, text)
    ensures NormalizeDate(e, NormalizeDate(e, text)) == NormalizeDate(e, text)
  {
    StripStripped(e.nfc(text), e.chars.isSpace);
    StripStripped(e.Trim(e.nfc(text)), e.chars.isSpace);
    StripStripped(text, e.chars.isSpace);
    StripStripped(e.Trim(text), e.chars.isSpace);
    MoneyIsIdempotent(e.chars, text);
    DateIsIdempotent(e, text);
  }

  lemma NamesStable(e: Env, m: W.Matcher, stores: seq<string>, products: seq<string>, name: string)
    requires Indexed(e, m, stores, products)
    ensures e.store(e.store(name)) == e.store(name) && e.product(e.product(name)) == e.product(name)
  {
    W.MatchIsIdempotent(m, stores, W.STORE, name, e.store(name), e.store(e.store(name)));
    W.MatchIsIdempotent(m, products, W.PRODUCT, name, e.product(name), e.product(e.product(name)));
  }

  /** A product that is postprocessed again keeps all but its quantity. */
  lemma ProductTwice(e: Env, m: W.Matcher, stores: seq<string>, products: seq<string>, p: Product)
    requires TextLawful(e) && ParseLawful(e) && Indexed(e, m, stores, products) && NormalizeProduct(e, p).Some?
    ensures var q := NormalizeProduct(e, p).value; var again := NormalizeQuantity(e, q.productQuantity);
      NormalizeProduct(e, q) == if again.None? then None else Some(q.(productQuantity := again.value))
  {
    TextFieldsStable(e, p.productId);
    TextFieldsStable(e, p.productUnitPrice);
    TextFieldsStable(e, p.productDiscountMoney);
    TextFieldsStable(e, p.productTotalMoney);
    NamesStable(e, m, stores, products, p.productName);
  }

  predicate ProductsSameButQuantities(a: seq<Product>, b: seq<Product>) {
    |a| == |b| && forall i :: 0 <= i < |a| ==> a[i].(productQuantity := "") == b[i].(productQuantity := "")
  }

  /** Normalising a normal product changes its quantity at most, and only if it was unsettled. */
  ghost predicate Twice(e: Env, raw: Product, final: Product) {
    var again := NormalizeProduct(e, final);
    && (again.Some? ==> again.value.(productQuantity := "") == final.(productQuantity := ""))
    && (again == Some(final) <==> !Unsettled(e, raw.productQuantity))
  }

  lemma ProductSettled(e: Env, m: W.Matcher, stores: seq<string>, products: seq<string>, raw: Product)
    requires TextLawful(e) && ParseLawful(e) && Indexed(e, m, stores, products) && NormalizeProduct(e, raw).Some?
    ensures Twice(e, raw, NormalizeProduct(e, raw).value)
  {
    ProductTwice(e, m, stores, products, raw);
    QuantityStableExactly(e, raw.productQuantity);
  }

  lemma ProductsTwice(e: Env, raws: seq<Product>, finals: seq<Product>)
    requires |raws| == |finals| && forall i :: 0 <= i < |raws| ==> Twice(e, raws[i], finals[i])
    ensures var again := NormalizeProducts(e, finals);
      && (again.Some? ==> ProductsSameButQuantities(again.value, finals))
      && (again == Some(finals) <==> forall i :: 0 <= i < |raws| ==> !Unsettled(e, raws[i].productQuantity))
  {
    ProductsStable(e, finals);
    forall i | 0 <= i < |raws|
      ensures NormalizeProduct(e, finals[i]) == Some(finals[i]) <==> !Unsettled(e, raws[i].productQuantity)
    {
      assert Twice(e, raws[i], finals[i]);
    }
    var again := NormalizeProducts(e, finals);
    if again.Some? {
      forall i | 0 <= i < |finals| ensures again.value[i].(productQuantity := "") == finals[i].(productQuantity := "") {
        assert Twice(e, raws[i], finals[i]) && NormalizeProduct(e, finals[i]) == Some(again.value[i]);
      }
    }
  }

  lemma FieldsTwice(e: Env, m: W.Matcher, stores: seq<string>, products: seq<string>, raw: InvoiceResult)
    requires TextLawful(e) && Indexed(e, m, stores, products) && Postprocess(e, raw).Some?
    ensures var final := Postprocess(e, raw).value; var again := NormalizeProducts(e, final.products);
      Postprocess(e, final) == if again.None? then None else Some(final.(products := again.value))
  {
    NamesStable(e, m, stores, products, raw.name);
    TextFieldsStable(e, raw.kind);
    TextFieldsStable(e, raw.date);
    TextFieldsStable(e, raw.time);
    TextFieldsStable(e, raw.posId);
    TextFieldsStable(e, raw.receiptNumber);
    TextFieldsStable(e, raw.cashier);
    TextFieldsStable(e, raw.totalMoney);
    TextFieldsStable(e, raw.barcode);
  }

  /** int() raises on what this quantity parses to: an infinity or NaN. */
  predicate Raises(e: Env, text: string) {
    text != "" && e.parse(Dotted(e.Trim(text))).NonFinite?
  }

  lemma {:induction false} ProductsRaise(e: Env, ps: seq<Product>)
    ensures NormalizeProducts(e, ps).None? <==> exists i :: 0 <= i < |ps| && Raises(e, ps[i].productQuantity)
  {
    if ps == [] {
    } else {
      var init, last := ps[..|ps| - 1], ps[|ps| - 1];
      ProductsRaise(e, init);
      assert ps == init + [last];
      assert NormalizeProduct(e, last).None? <==> Raises(e, last.productQuantity);
      assert forall i :: 0 <= i < |init| ==> ps[i] == init[i];
      if i :| 0 <= i < |init| && Raises(e, init[i].productQuantity) {
        assert Raises(e, ps[i].productQuantity);
      }
    }
  }

  /** Postprocessing raises exactly if some quantity is an infinity or NaN. */
  lemma PostprocessRaisesExactly(e: Env, raw: InvoiceResult)
    ensures Postprocess(e, raw).None?
       <==> exists i :: 0 <= i < |raw.products| && Raises(e, raw.products[i].productQuantity)
  {
    ProductsRaise(e, raw.products);
  }

  /** Equal in all but the quantities of products. */
  predicate SameButQuantities(a: InvoiceResult, b: InvoiceResult) {
    a.(products := []) == b.(products := []) && ProductsSameButQuantities(a.products, b.products)
  }

  /** Postprocessing a postprocessed result changes quantities at most, and nothing at all exactly
      if no quantity of the raw result was unsettled. */
  lemma PostprocessTwice(e: Env, m: W.Matcher, stores: seq<string>, products: seq<string>, raw: InvoiceResult)
    requires TextLawful(e) && ParseLawful(e) && Indexed(e, m, stores, products) && Postprocess(e, raw).Some?
    ensures var final := Postprocess(e, raw).value;
      && (Postprocess(e, final).Some? ==> SameButQuantities(Postprocess(e, final).value, final))
      && (Postprocess(e, final) == Some(final)
          <==> forall i :: 0 <= i < |raw.products| ==> !Unsettled(e, raw.products[i].productQuantity))
  {
    FieldsTwice(e, m, stores, products, raw);
    var finals := Postprocess(e, raw).value.products;
    forall i | 0 <= i < |finals| ensures Twice(e, raw.products[i], finals[i]) {
      assert NormalizeProduct(e, raw.products[i]) == Some(finals[i]);
      ProductSettled(e, m, stores, products, raw.products[i]);
    }
    ProductsTwice(e, raw.products, finals);
  }
}
