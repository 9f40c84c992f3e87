/** _normalize_money of src/pipeline/postprocessor.py: a sign and the digits, whatever the dress. */
module Money {

  /** What Unicode calls a decimal digit, and what it calls white space. */
  datatype Chars = Chars(isDigit: char -> bool, isSpace: char -> bool)

  predicate IsCurrency(c: char) {
    c == '\U{0111}' || c == '\U{0110}' || c == '\U{20AB}'
  }

  predicate IsBracket(c: char) {
    c == '-' || c == '(' || c == ')'
  }

  predicate IsSeparator(c: char) {
    c == ',' || c == '.'
  }

  ghost predicate Lawful(u: Chars) {
    && (forall c :: '0' <= c <= '9' ==> u.isDigit(c))
    && (forall c :: u.isDigit(c) ==> !u.isSpace(c) && !IsCurrency(c) && !IsBracket(c) && !IsSeparator(c))
    && (forall c :: u.isSpace(c) ==> !IsCurrency(c) && !IsBracket(c) && !IsSeparator(c))
  }

  function Without(s: string, drop: char -> bool): string {
    if s == "" then "" else Without(s[..|s| - 1], drop) + if drop(s[|s| - 1]) then "" else [s[|s| - 1]]
  }

  function LeftStrip(s: string, trim: char -> bool): string {
    if s != "" && trim(s[0]) then LeftStrip(s[1..], trim) else s
  }

  function RightStrip(s: string, trim: char -> bool): string {
    if s != "" && trim(s[|s| - 1]) then RightStrip(s[..|s| - 1], trim) else s
  }

  /** Python's strip */
  function Strip(s: string, trim: char -> bool): string {
    RightStrip(LeftStrip(s, trim), trim)
  }

  function NormalizeMoney(u: Chars, value: string): string {
    if value == "" then ""
    else
      var bare := Without(Strip(value, u.isSpace), c => IsCurrency(c) || u.isSpace(c));
      var negative := bare != "" && (bare[0] == '-' || bare[0] == '(');
      var inner := Strip(Strip(bare, IsBracket), u.isSpace);
      if inner == "" then ""
      else
        var digits := Without(Without(Without(inner, c => c == ','), c => c == '.'), c => !u.isDigit(c));
        if digits == "" then "" else if negative then "-" + digits else digits
  }

  // ---- What it comes to ----

  function Digits(u: Chars, s: string): string {
    Without(s, c => !u.isDigit(c))
  }

  function Bare(u: Chars, s: string): string {
    Without(s, c => IsCurrency(c) || u.isSpace(c))
  }

  /** The first character that is neither a space nor a currency sign is '-' or '('. */
  predicate Negative(u: Chars, s: string) {
    var bare := Bare(u, s);
    bare != "" && (bare[0] == '-' || bare[0] == '(')
  }

  function Signed(u: Chars, s: string): string {
    if Digits(u, s) == "" then "" else if Negative(u, s) then "-" + Digits(u, s) else Digits(u, s)
  }

  lemma {:induction false} WithoutDrops(s: string, drop: char -> bool)
    ensures forall c :: c in Without(s, drop) ==> !drop(c)
  {
    if s == "" {
    } else {
      WithoutDrops(s[..|s| - 1], drop);
    }
  }

  lemma {:induction false} WithoutAppend(a: string, b: string, drop: char -> bool)
    ensures Without(a + b, drop) == Without(a, drop) + Without(b, drop)
  {
    if b == "" {
      assert a + b == a;
    } else {
      var last := |b| - 1;
      WithoutAppend(a, b[..last], drop);
      assert (a + b)[..|a + b| - 1] == a + b[..last];
    }
  }

  lemma {:induction false} WithoutAll(s: string, drop: char -> bool)
    requires forall c :: c in s ==> drop(c)
    ensures Without(s, drop) == ""
  {
    if s == "" {
    } else {
      WithoutAll(s[..|s| - 1], drop);
    }
  }

  lemma {:induction false} WithoutNone(s: string, drop: char -> bool)
    requires forall c :: c in s ==> !drop(c)
    ensures Without(s, drop) == s
  {
    if s == "" {
    } else {
      WithoutNone(s[..|s| - 1], drop);
      assert s == s[..|s| - 1] + [s[|s| - 1]];
    }
  }

  /** Dropping less first changes nothing. */
  lemma {:induction false} WithoutTwice(s: string, less: char -> bool, drop: char -> bool)
    requires forall c :: less(c) ==> drop(c)
    ensures Without(Without(s, less), drop) == Without(s, drop)
  {
    if s == "" {
    } else {
      var last := |s| - 1;
      WithoutTwice(s[..last], less, drop);
      WithoutAppend(Without(s[..last], less), if less(s[last]) then "" else [s[last]], drop);
      assert Without([s[last]], drop) == if drop(s[last]) then "" else [s[last]];
    }
  }

  lemma {:induction false} WithoutLeftStrip(s: string, trim: char -> bool, drop: char -> bool)
    requires forall c :: trim(c) ==> drop(c)
    ensures Without(LeftStrip(s, trim), drop) == Without(s, drop)
  {
    if s != "" && trim(s[0]) {
      WithoutLeftStrip(s[1..], trim, drop);
      WithoutAppend([s[0]], s[1..], drop);
      assert s == [s[0]] + s[1..];
      assert Without([s[0]], drop) == "";
    }
  }

  lemma {:induction false} WithoutRightStrip(s: string, trim: char -> bool, drop: char -> bool)
    requires forall c :: trim(c) ==> drop(c)
    ensures Without(RightStrip(s, trim), drop) == Without(s, drop)
  {
    if s != "" && trim(s[|s| - 1]) {
      WithoutRightStrip(s[..|s| - 1], trim, drop);
    }
  }

  /** Nor does stripping what would be dropped anyway. */
  lemma WithoutStrip(s: string, trim: char -> bool, drop: char -> bool)
    requires forall c :: trim(c) ==> drop(c)
    ensures Without(Strip(s, trim), drop) == Without(s, drop)
  {
    WithoutLeftStrip(s, trim, drop);
    WithoutRightStrip(LeftStrip(s, trim), trim, drop);
  }

  /** On every string the money normaliser keeps the digits, and a sign if the first visible
      character is one. */
  lemma MoneyIsSignAndDigits(u: Chars, value: string)
    requires Lawful(u)
    ensures NormalizeMoney(u, value) == Signed(u, value)
  {
    var digits := (c: char) => !u.isDigit(c);
    var bare := Without(Strip(value, u.isSpace), c => IsCurrency(c) || u.isSpace(c));
    WithoutStrip(value, u.isSpace, c => IsCurrency(c) || u.isSpace(c));
    assert bare == Bare(u, value);
    WithoutTwice(value, c => IsCurrency(c) || u.isSpace(c), digits);
    var inner := Strip(Strip(bare, IsBracket), u.isSpace);
    WithoutStrip(Strip(bare, IsBracket), u.isSpace, digits);
    WithoutStrip(bare, IsBracket, digits);
    assert Without(inner, digits) == Digits(u, value);
    WithoutTwice(inner, c => c == ',', digits);
    WithoutTwice(Without(inner, c => c == ','), c => c == '.', digits);
  }

  lemma DigitsOnly(u: Chars, d: string)
    requires Lawful(u) && forall c :: c in d ==> u.isDigit(c)
    ensures Digits(u, d) == d && Bare(u, d) == d && Digits(u, "-" + d) == d && Bare(u, "-" + d) == "-" + d
  {
    WithoutNone(d, c => !u.isDigit(c));
    WithoutNone(d, c => IsCurrency(c) || u.isSpace(c));
    WithoutAppend("-", d, c => !u.isDigit(c));
    WithoutAppend("-", d, c => IsCurrency(c) || u.isSpace(c));
    assert IsBracket('-');
    assert Without("-", c => !u.isDigit(c)) == "";
    assert Without("-", c => IsCurrency(c) || u.isSpace(c)) == "-";
  }

  /** Normal forms are their own normal form. */
  lemma MoneyIsIdempotent(u: Chars, value: string)
    requires Lawful(u)
    ensures NormalizeMoney(u, NormalizeMoney(u, value)) == NormalizeMoney(u, value)
  {
    MoneyIsSignAndDigits(u, value);
    MoneyIsSignAndDigits(u, NormalizeMoney(u, value));
    WithoutDrops(value, c => !u.isDigit(c));
    DigitsOnly(u, Digits(u, value));
    if Digits(u, value) != "" {
      assert u.isDigit(Digits(u, value)[0]);
    }
  }

  // ---- Round trip ----

  function DigitChar(d: nat): char
    requires d < 10
  {
    '0' + d as char
  }

  /** The plain decimal string of a number. */
  function Decimal(n: nat): (s: string)
    ensures s != "" && forall c :: c in s ==> '0' <= c <= '9'
  {
    if n < 10 then [DigitChar(n)] else Decimal(n / 10) + [DigitChar(n % 10)]
  }

  function Plain(n: int): string {
    if n < 0 then "-" + Decimal(-n) else Decimal(n)
  }

  /** The number a plain decimal string stands for. */
  function ValueOf(s: string): int {
    if s == "" then 0
    else if s[0] == '-' then -Natural(s[1..])
    else Natural(s)
  }

  function Natural(s: string): int {
    if s == "" then 0 else 10 * Natural(s[..|s| - 1]) + (s[|s| - 1] as int - '0' as int)
  }

  lemma {:induction false} DecimalValue(n: nat)
    ensures Natural(Decimal(n)) == n
  {
    if n >= 10 {
      DecimalValue(n / 10);
      assert Decimal(n)[..|Decimal(n)| - 1] == Decimal(n / 10);
    }
  }

  lemma PlainValue(n: int)
    ensures ValueOf(Plain(n)) == n
  {
    if n < 0 {
      DecimalValue(-n);
      assert Plain(n)[1..] == Decimal(-n);
    } else {
      DecimalValue(n);
      assert Decimal(n)[0] in Decimal(n);
    }
  }

  /** Thousands set off by a comma or a dot. */
  function Grouped(digits: string, separator: char): string {
    if |digits| <= 3 then digits
    else Grouped(digits[..|digits| - 3], separator) + [separator] + digits[|digits| - 3..]
  }

  /** How receipts write a negative amount. */
  datatype Style = Minus | Parentheses

  function Written(n: int, separator: char, style: Style): string {
    var amount := Grouped(Decimal(if n < 0 then -n else n), separator);
    if n >= 0 then amount else if style.Minus? then "-" + amount else "(" + amount + ")"
  }

  predicate AllDigits(s: string) {
    forall i :: 0 <= i < |s| ==> '0' <= s[i] <= '9'
  }

  lemma {:induction false} GroupedChars(digits: string, separator: char)
    requires IsSeparator(separator) && AllDigits(digits)
    ensures forall c :: c in Grouped(digits, separator) ==> '0' <= c <= '9' || IsSeparator(c)
    ensures digits != "" ==> Grouped(digits, separator) != "" && Grouped(digits, separator)[0] == digits[0]
  {
    if |digits| > 3 {
      GroupedChars(digits[..|digits| - 3], separator);
    }
  }

  lemma WithoutLast(s: string, c: char, drop: char -> bool)
    requires drop(c)
    ensures Without(s + [c], drop) == Without(s, drop)
  {
    assert (s + [c])[..|s|] == s;
  }

  lemma WithoutMiddle(high: string, separator: char, low: string, drop: char -> bool)
    requires drop(separator) && forall c :: c in low ==> !drop(c)
    ensures Without(high + [separator] + low, drop) == Without(high, drop) + low
  {
    WithoutAppend(high + [separator], low, drop);
    WithoutLast(high, separator, drop);
    WithoutNone(low, drop);
  }

  lemma {:induction false} GroupedDigits(u: Chars, digits: string, separator: char)
    requires Lawful(u) && IsSeparator(separator) && AllDigits(digits)
    ensures Digits(u, Grouped(digits, separator)) == digits
  {
    if |digits| <= 3 {
      WithoutNone(digits, c => !u.isDigit(c));
    } else {
      var high, low := digits[..|digits| - 3], digits[|digits| - 3..];
      GroupedDigits(u, high, separator);
      WithoutMiddle(Grouped(high, separator), separator, low, c => !u.isDigit(c));
      assert digits == high + low;
    }
  }

  lemma WithoutAround(before: string, amount: string, after: string, drop: char -> bool)
    requires forall c :: c in before || c in after ==> drop(c)
    ensures Without(before + amount + after, drop) == Without(amount, drop)
  {
    WithoutAppend(before + amount, after, drop);
    WithoutAppend(before, amount, drop);
    WithoutAll(before, drop);
    WithoutAll(after, drop);
  }

  /** Spaces and currency signs around an amount change nothing. */
  lemma DressIgnored(u: Chars, before: string, amount: string, after: string)
    requires Lawful(u)
    requires forall c :: c in before || c in after ==> u.isSpace(c) || IsCurrency(c)
    ensures Signed(u, before + amount + after) == Signed(u, amount)
  {
    WithoutAround(before, amount, after, c => !u.isDigit(c));
    WithoutAround(before, amount, after, c => IsCurrency(c) || u.isSpace(c));
  }

  lemma AmountBare(u: Chars, amount: string)
    requires Lawful(u) && forall c :: c in amount ==> '0' <= c <= '9' || IsSeparator(c) || IsBracket(c)
    ensures Bare(u, amount) == amount
  {
    forall c | c in amount ensures !IsCurrency(c) && !u.isSpace(c) {
      assert u.isSpace(c) ==> !IsBracket(c) && !IsSeparator(c);
    }
    WithoutNone(amount, c => IsCurrency(c) || u.isSpace(c));
  }

  lemma BracketsIgnored(u: Chars, open: string, amount: string, close: string)
    requires Lawful(u) && forall c :: c in open || c in close ==> IsBracket(c)
    ensures Digits(u, open + amount + close) == Digits(u, amount)
  {
    WithoutAround(open, amount, close, c => !u.isDigit(c));
  }

  lemma WrittenSigned(u: Chars, n: int, separator: char, style: Style)
    requires Lawful(u) && IsSeparator(separator)
    ensures Signed(u, Written(n, separator, style)) == Plain(n)
  {
    var digits := Decimal(if n < 0 then -n else n);
    var amount := Grouped(digits, separator);
    forall i | 0 <= i < |digits| ensures '0' <= digits[i] <= '9' {
      assert digits[i] in digits;
    }
    GroupedDigits(u, digits, separator);
    GroupedChars(digits, separator);
    AmountBare(u, Written(n, separator, style));
    if n < 0 {
      var open, close := if style.Minus? then "-" else "(", if style.Minus? then "" else ")";
      assert Written(n, separator, style) == open + amount + close;
      BracketsIgnored(u, open, amount, close);
    } else {
      assert digits[0] in digits;
    }
  }

  /** Every whole amount comes back, however its thousands are grouped, its sign is written, and
      whatever spaces and currency signs stand around it. */
  lemma MoneyRoundTrip(u: Chars, n: int, separator: char, style: Style, before: string, after: string)
    requires Lawful(u) && IsSeparator(separator)
    requires forall c :: c in before || c in after ==> u.isSpace(c) || IsCurrency(c)
    ensures NormalizeMoney(u, before + Written(n, separator, style) + after) == Plain(n)
    ensures ValueOf(NormalizeMoney(u, before + Written(n, separator, style) + after)) == n
  {
    MoneyIsSignAndDigits(u, before + Written(n, separator, style) + after);
    DressIgnored(u, before, Written(n, separator, style), after);
    WrittenSigned(u, n, separator, style);
    PlainValue(n);
  }
}
