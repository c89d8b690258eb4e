/** The price-text normaliser that every scraper carries a copy of (`clean_price`, `extract_price`):
    keep digits, '.' and ',', decide whether a comma is a thousands or a decimal separator, then
    read the rest as a number. `float()` is modelled exactly, as a decimal, not as a double. */
module PriceText {
  import opened Wrappers
  import opened Text

  /** The exact number `units / 10^scale` that `float()` reads from a digit string. */
  datatype Decimal = Decimal(units: nat, scale: nat)

  function Value(d: Decimal): real {
    d.units as real / Pow10(d.scale) as real
  }

  /** Python truthiness of the parsed float: every price that is not zero. */
  predicate Truthy(p: Option<real>) {
    p.Some? && p.value != 0.0
  }

  /** The characters the normaliser's `re.sub(r'[^\d.,]', '', ...)` keeps. */
  predicate IsPriceChar(c: char) {
    IsDigit(c) || c == '.' || c == ','
  }

  /** `re.sub(r'[^\d.,]', '', s)`: the subsequence of digits, dots and commas. */
  function KeepPriceChars(s: string): (r: string)
    ensures |r| <= |s|
    ensures forall i :: 0 <= i < |r| ==> IsPriceChar(r[i])
  {
    if |s| == 0 then ""
    else (if IsPriceChar(s[0]) then [s[0]] else []) + KeepPriceChars(s[1..])
  }

  /** The filter keeps a character only when it is a price character of the input. */
  lemma {:induction false} KeepPriceCharsFrom(s: string, c: char)
    requires c in KeepPriceChars(s)
    ensures c in s && IsPriceChar(c)
    decreases |s|
  {
    if !(IsPriceChar(s[0]) && c == s[0]) {
      KeepPriceCharsFrom(s[1..], c);
    }
  }

  lemma {:induction false} KeepPriceCharsConcat(a: string, b: string)
    ensures KeepPriceChars(a + b) == KeepPriceChars(a) + KeepPriceChars(b)
    decreases |a|
  {
    if |a| > 0 {
      assert (a + b)[1..] == a[1..] + b;
      KeepPriceCharsConcat(a[1..], b);
    } else {
      assert a + b == b;
    }
  }

  /** A text made only of price characters passes the filter unchanged. */
  lemma {:induction false} KeepPriceCharsId(s: string)
    requires forall i :: 0 <= i < |s| ==> IsPriceChar(s[i])
    ensures KeepPriceChars(s) == s
    decreases |s|
  {
    if |s| > 0 {
      KeepPriceCharsId(s[1..]);
    }
  }

  /** The separator rule: with both separators, commas are thousands separators and are dropped;
      with commas only, they are decimal points when the text after the last comma has exactly two
      characters, and thousands separators otherwise. */
  function ResolveSeparators(t: string): string {
    if ',' in t && '.' in t then ReplaceChar(t, ',', "")
    else if ',' in t then
      if |LastPiece(t, ",")| == 2 then ReplaceChar(t, ',', ".") else ReplaceChar(t, ',', "")
    else t
  }

  /** What `float()` accepts once only digits, dots and commas are left and the commas are
      resolved: digits and dots only, at least one digit, at most one dot. */
  predicate IsNumeral(t: string) {
    && (forall k :: 0 <= k < |t| ==> IsDigit(t[k]) || t[k] == '.')
    && (exists k :: 0 <= k < |t| && IsDigit(t[k]))
    && (forall j, k :: 0 <= j < k < |t| && t[j] == '.' ==> t[k] != '.')
  }

  /** Python `float()` on a text of digits and dots: the digits before and after the only dot. */
  function ParseDigitsAndDots(t: string): Option<Decimal> {
    match IndexOf(t, ".")
    case None =>
      if |t| > 0 && AllDigits(t) then Some(Decimal(DigitsValue(t), 0)) else None
    case Some(i) =>
      var a := t[..i];
      var b := t[i + 1..];
      if AllDigits(a) && AllDigits(b) && |a| + |b| > 0 then Some(Decimal(DigitsValue(a + b), |b|))
      else None
  }

  /** The parser accepts exactly the numerals. */
  lemma ParseAcceptsNumerals(t: string)
    ensures ParseDigitsAndDots(t).Some? <==> IsNumeral(t)
  {
    IndexOfChar(t, '.');
    match IndexOf(t, ".")
    case None =>
      assert forall k :: 0 <= k < |t| ==> t[k] != '.';
      if IsNumeral(t) {
        var k :| 0 <= k < |t| && IsDigit(t[k]);
      }
      if |t| > 0 && AllDigits(t) {
        assert IsDigit(t[0]);
      }
    case Some(i) =>
      var a := t[..i];
      var b := t[i + 1..];
      assert t[i] == '.' && '.' !in a;
      if IsNumeral(t) {
        forall k | 0 <= k < |a|
          ensures IsDigit(a[k])
        {
          assert a[k] == t[k];
        }
        forall k | 0 <= k < |b|
          ensures IsDigit(b[k])
        {
          assert b[k] == t[i + 1 + k];
        }
        var k :| 0 <= k < |t| && IsDigit(t[k]);
        assert |a| + |b| > 0 by {
          if k < i { assert a[k] == t[k]; } else { assert k > i && b[k - i - 1] == t[k]; }
        }
      }
      if AllDigits(a) && AllDigits(b) && |a| + |b| > 0 {
        forall k | 0 <= k < |t|
          ensures IsDigit(t[k]) || t[k] == '.'
          ensures k != i ==> IsDigit(t[k])
        {
          if k < i { assert t[k] == a[k]; } else if k > i { assert t[k] == b[k - i - 1]; }
        }
        if |a| > 0 { assert IsDigit(t[0]); } else { assert IsDigit(t[i + 1]); }
      }
  }

  /** A numeral with a dot reads as its digits scaled by the number of digits after the dot. */
  lemma ParsePointed(a: string, b: string)
    requires AllDigits(a) && AllDigits(b) && |a| + |b| > 0
    ensures ParseDigitsAndDots(a + "." + b) == Some(Decimal(DigitsValue(a + b), |b|))
  {
    var t := a + "." + b;
    assert IndexOf(t, ".") == Some(|a|) by {
      assert OccursAt(".", t, |a|) by { assert t[|a|..|a| + 1] == "."; }
      forall j: nat | j < |a|
        ensures !OccursAt(".", t, j)
      {
        OccursAtChar(t, '.', j);
        assert t[j] == a[j];
      }
    }
    assert t[..|a|] == a;
    assert t[|a| + 1..] == b;
  }

  /** A numeral without a dot reads as its digits. */
  lemma ParsePlain(s: string)
    requires AllDigits(s) && |s| > 0
    ensures ParseDigitsAndDots(s) == Some(Decimal(DigitsValue(s), 0))
  {
    IndexOfChar(s, '.');
    DigitsHaveNoSeparator(s);
  }

  /** `clean_price` read as an exact decimal. */
  function CleanPriceDecimal(text: string): Option<Decimal> {
    if |text| == 0 then None
    else ParseDigitsAndDots(ResolveSeparators(KeepPriceChars(text)))
  }

  /** `clean_price(text)` / `extract_price(text)`: the number in a price text, or `None`.
      (The `strip()` before the filter removes only whitespace, which the filter drops anyway.) */
  function CleanPrice(text: string): (r: Option<real>)
    ensures |text| == 0 ==> r == None
    ensures r.Some? ==> exists i :: 0 <= i < |text| && IsDigit(text[i])
    ensures r.Some? ==> r.value >= 0.0
  {
    match CleanPriceDecimal(text)
    case None => None
    case Some(d) =>
      PriceHasDigit(text);
      QuotientNonNegative(d.units as real, Pow10(d.scale) as real);
      Some(Value(d))
  }

  /** A count divided by a positive count is not negative. */
  lemma QuotientNonNegative(x: real, y: real)
    requires x >= 0.0 && y > 0.0
    ensures x / y >= 0.0
  {
  }

  /** The cleaned price is the value of the cleaned decimal. */
  lemma CleanPriceValue(text: string)
    ensures CleanPriceDecimal(text).None? ==> CleanPrice(text).None?
    ensures CleanPriceDecimal(text).Some? ==> CleanPrice(text) == Some(Value(CleanPriceDecimal(text).value))
  {
  }

  /** A text the normaliser reads has a digit in it. */
  lemma PriceHasDigit(text: string)
    requires CleanPriceDecimal(text).Some?
    ensures exists i :: 0 <= i < |text| && IsDigit(text[i])
  {
    var k := KeepPriceChars(text);
    var t := ResolveSeparators(k);
    ParseAcceptsNumerals(t);
    var j :| 0 <= j < |t| && IsDigit(t[j]);
    var c := t[j];
    assert c in t;
    if ',' in k {
      ReplaceCharFrom(k, ',', if ',' in k && '.' in k then "" else if |LastPiece(k, ",")| == 2 then "." else "", c);
    }
    assert c in k;
    KeepPriceCharsFrom(text, c);
  }

  // ---------------------------------------------------------------- the separator rules, stated

  /** Characters other than digits, dots and commas (currency signs, spaces, letters) never change
      the result. */
  lemma NoiseIgnored(text: string)
    requires |KeepPriceChars(text)| > 0
    ensures CleanPrice(text) == CleanPrice(KeepPriceChars(text))
  {
    var k := KeepPriceChars(text);
    KeepPriceCharsId(k);
  }

  // ---------------------------------------------------------------- the separator rules, as values

  /** Digits, one comma and more digits: only price characters, no point, a comma in the middle. */
  lemma CommaTextChars(a: string, b: string)
    requires AllDigits(a) && AllDigits(b)
    ensures forall k :: 0 <= k < |a + "," + b| ==> IsPriceChar((a + "," + b)[k])
    ensures ',' in a + "," + b && '.' !in a + "," + b
  {
    var t := a + "," + b;
    forall k | 0 <= k < |t|
      ensures IsPriceChar(t[k]) && t[k] != '.'
    {
      if k < |a| { assert t[k] == a[k]; } else if k > |a| { assert t[k] == b[k - |a| - 1]; }
    }
    assert t[|a|] == ',';
  }

  /** Replacing the comma of digits, a comma and digits. */
  lemma ReplaceOnlyComma(a: string, b: string, u: string)
    requires AllDigits(a) && AllDigits(b)
    ensures ReplaceChar(a + "," + b, ',', u) == a + u + b
  {
    DigitsHaveNoSeparator(a);
    DigitsHaveNoSeparator(b);
    assert a + "," + b == a + ([','] + b);
    ReplaceCharConcat(a, [','] + b, ',', u);
    ReplaceCharHead(b, ',', u);
    ReplaceCharAbsent(a, ',', u);
    ReplaceCharAbsent(b, ',', u);
  }

  /** Digits, one comma and two more digits: the filter keeps them and the comma becomes the
      decimal point. */
  lemma CommaResolvesToPoint(a: string, b: string)
    requires AllDigits(a) && AllDigits(b) && |b| == 2
    ensures KeepPriceChars(a + "," + b) == a + "," + b
    ensures ResolveSeparators(a + "," + b) == a + "." + b
  {
    var t := a + "," + b;
    CommaTextChars(a, b);
    KeepPriceCharsId(t);
    DigitsHaveNoSeparator(b);
    LastPieceAfter(a, ',', b);
    assert |LastPiece(t, ",")| == 2;
    ReplaceOnlyComma(a, b, ".");
  }

  /** Two digits after the point are hundredths. */
  lemma HundredthsDigits(a: string, b: string)
    requires AllDigits(a) && AllDigits(b) && |b| == 2
    ensures AllDigits(a + b)
    ensures DigitsValue(a + b) == DigitsValue(a) * 100 + DigitsValue(b)
  {
    DigitsValueConcat(a, b);
    assert Pow10(2) == 100 by { assert Pow10(1) == 10; }
  }

  /** The decimal `clean_price` reads is the parse of the filtered, resolved text. */
  lemma CleanPriceDecimalOf(text: string, resolved: string)
    requires |text| > 0 && ResolveSeparators(KeepPriceChars(text)) == resolved
    ensures CleanPriceDecimal(text) == ParseDigitsAndDots(resolved)
  {
  }

  /** "12,50" reads as the decimal 1250 hundredths. */
  lemma CommaDecimalDigits(t: string, a: string, b: string, whole: nat, cents: nat)
    requires AllDigits(a) && AllDigits(b) && |b| == 2 && t == a + "," + b
    requires whole == DigitsValue(a) && cents == DigitsValue(b)
    ensures CleanPriceDecimal(t) == Some(Decimal(whole * 100 + cents, 2))
  {
    CommaParses(t, a, b, DigitsValue(a + b));
    HundredthsDigits(a, b);
    HundredthsUnits(CleanPriceDecimal(t), DigitsValue(a + b), DigitsValue(a), DigitsValue(b), whole, cents);
  }

  /** Units of `x * 100 + y` hundredths, renamed. */
  lemma HundredthsUnits(d: Option<Decimal>, u: nat, x: nat, y: nat, whole: nat, cents: nat)
    requires d == Some(Decimal(u, 2)) && u == x * 100 + y && whole == x && cents == y
    ensures d == Some(Decimal(whole * 100 + cents, 2))
  {
  }

  /** A comma before two final digits is read as a decimal point: the digits on both sides
      make up the hundredths. */
  lemma CommaParses(t: string, a: string, b: string, u: nat)
    requires AllDigits(a) && AllDigits(b) && |b| == 2 && t == a + "," + b && u == DigitsValue(a + b)
    ensures CleanPriceDecimal(t) == Some(Decimal(u, 2))
  {
    assert |t| > 0;
    CommaResolvesToPoint(a, b);
    CleanPriceDecimalOf(t, a + "." + b);
    ParsePointed(a, b);
  }

  lemma SomeHundredths(p: Option<real>, d: Option<Decimal>, x: nat, y: nat)
    requires d == Some(Decimal(x * 100 + y, 2))
    requires d.Some? ==> p == Some(Value(d.value))
    ensures p == Some(x as real + y as real / 100.0)
  {
    assert Pow10(2) == 100 by { assert Pow10(1) == 10; }
    assert Value(Decimal(x * 100 + y, 2)) == (x * 100 + y) as real / 100.0;
    assert (x * 100 + y) as real == x as real * 100.0 + y as real;
  }

  /** `clean_price` of digits, a comma and two digits: the whole part plus the hundredths
      ("12,50" is 12.5, ",99" is 0.99). */
  lemma CommaDecimal(t: string, a: string, b: string, whole: nat, cents: nat)
    requires AllDigits(a) && AllDigits(b) && |b| == 2 && t == a + "," + b
    requires whole == DigitsValue(a) && cents == DigitsValue(b)
    ensures CleanPrice(t) == Some(whole as real + cents as real / 100.0)
  {
    CommaDecimalDigits(t, a, b, whole, cents);
    HundredthsPrice(t, whole, cents);
  }

  /** A text read as `100 * x + y` hundredths is the price `x + y / 100`. */
  lemma HundredthsPrice(text: string, x: nat, y: nat)
    requires CleanPriceDecimal(text) == Some(Decimal(x * 100 + y, 2))
    ensures CleanPrice(text) == Some(x as real + y as real / 100.0)
  {
    CleanPriceValue(text);
    SomeHundredths(CleanPrice(text), CleanPriceDecimal(text), x, y);
  }

  /** Two commas or more with a two-character last group: every comma becomes a point, the
      result has two points, and `float()` fails ("12,34,56" gives no price). */
  lemma CommaGroupsRejected(text: string, i: nat, j: nat)
    requires i < j < |KeepPriceChars(text)|
    requires KeepPriceChars(text)[i] == ',' && KeepPriceChars(text)[j] == ','
    requires '.' !in KeepPriceChars(text)
    requires |LastPiece(KeepPriceChars(text), ",")| == 2
    ensures CleanPrice(text) == None
  {
    var k := KeepPriceChars(text);
    assert ',' in k;
    var r := ResolveSeparators(k);
    assert r == ReplaceChar(k, ',', ".");
    ReplaceCharByChar(k, ',', '.');
    assert r[i] == '.' && r[j] == '.';
    assert !IsNumeral(r);
    ParseAcceptsNumerals(r);
    CleanPriceValue(text);
  }
}
