/** The price display of the scripts' reports, `f"{symbol}{x:,.2f}"`, and the fact that the
    price-text normaliser reads such a display back as the amount shown. */
module PriceFormat {
  import opened Wrappers
  import opened Text
  import opened PriceText

  /** Python's `format(n, ',')` applied to the digits of `n`: groups of three from the right,
      separated by commas. */
  function GroupThousands(s: string): (r: string)
    decreases |s|
  {
    if |s| <= 3 then s
    else GroupThousands(s[..|s| - 3]) + "," + s[|s| - 3..]
  }

  /** Grouping digits leaves only digits and commas. */
  lemma {:induction false} GroupThousandsChars(s: string)
    requires AllDigits(s)
    ensures forall i :: 0 <= i < |GroupThousands(s)| ==>
              IsDigit(GroupThousands(s)[i]) || GroupThousands(s)[i] == ','
    decreases |s|
  {
    if |s| > 3 {
      var hi := s[..|s| - 3];
      var g := GroupThousands(hi);
      var r := GroupThousands(s);
      GroupThousandsChars(hi);
      forall i | 0 <= i < |r| ensures IsDigit(r[i]) || r[i] == ',' {
        if i < |g| { assert r[i] == g[i]; }
        else if i > |g| { assert r[i] == s[|s| - 3 + i - |g| - 1]; }
      }
    }
  }

  /** One grouping step: the leading groups, a comma, the last three digits. */
  lemma GroupThousandsStep(s: string)
    requires |s| > 3
    ensures GroupThousands(s) == GroupThousands(s[..|s| - 3]) + ([','] + s[|s| - 3..])
  {
  }

  lemma UngroupShort(s: string)
    requires ',' !in s && |s| <= 3
    ensures ReplaceChar(GroupThousands(s), ',', "") == s
  {
    ReplaceCharAbsent(s, ',', "");
  }

  /** Dropping the commas undoes the grouping of a text that had none. */
  lemma {:induction false} UngroupThousands(s: string)
    requires ',' !in s
    ensures ReplaceChar(GroupThousands(s), ',', "") == s
    decreases |s|
  {
    if |s| <= 3 {
      UngroupShort(s);
    } else {
      var hi := s[..|s| - 3];
      var lo := s[|s| - 3..];
      assert s == hi + lo;
      NotInParts(hi, lo, ',');
      GroupThousandsStep(s);
      UngroupThousands(hi);
      DropCommaBefore(GroupThousands(hi), lo);
    }
  }

  /** Dropping the commas of `g + "," + lo`, for a comma-free `lo`, drops those of `g` and keeps
      `lo`. */
  lemma DropCommaBefore(g: string, lo: string)
    requires ',' !in lo
    ensures ReplaceChar(g + ([','] + lo), ',', "") == ReplaceChar(g, ',', "") + lo
  {
    ReplaceCharHead(lo, ',', "");
    ReplaceCharAbsent(lo, ',', "");
    assert ReplaceChar([','] + lo, ',', "") == lo by {
      assert "" + lo == lo;
    }
    ReplaceCharConcat(g, [','] + lo, ',', "");
  }

  function TwoDigits(n: nat): (r: string)
    requires n < 100
    ensures |r| == 2 && AllDigits(r)
  {
    [DigitChar(n / 10), DigitChar(n % 10)]
  }

  /** How the scripts display a price of `cents` hundredths: `f"{symbol}{x:,.2f}"`. */
  function FormatPrice(symbol: string, cents: nat): string {
    symbol + (GroupThousands(NatToString(cents / 100)) + "." + TwoDigits(cents % 100))
  }

  /** A text without price characters is removed entirely by the filter. */
  lemma {:induction false} KeepPriceCharsNone(s: string)
    requires forall i :: 0 <= i < |s| ==> !IsPriceChar(s[i])
    ensures KeepPriceChars(s) == ""
    decreases |s|
  {
    if |s| > 0 {
      KeepPriceCharsNone(s[1..]);
    }
  }

  /** The filter removes a symbol without price characters and keeps the displayed number. */
  lemma KeepDisplayedNumber(symbol: string, plain: string)
    requires forall i :: 0 <= i < |symbol| ==> !IsPriceChar(symbol[i])
    requires forall i :: 0 <= i < |plain| ==> IsPriceChar(plain[i])
    ensures KeepPriceChars(symbol + plain) == plain
  {
    KeepPriceCharsConcat(symbol, plain);
    KeepPriceCharsNone(symbol);
    KeepPriceCharsId(plain);
  }

  /** Numbers of four digits or more get a comma, shorter ones are left as they are. */
  lemma GroupThousandsShape(s: string)
    ensures |s| <= 3 ==> GroupThousands(s) == s
    ensures |s| > 3 ==> ',' in GroupThousands(s)
  {
    if |s| > 3 {
      GroupThousandsStep(s);
      var g := GroupThousands(s[..|s| - 3]);
      assert GroupThousands(s)[|g|] == ',';
    }
  }

  /** The separators of a displayed number resolve to the plain digits, a dot and the cents. */
  lemma ResolveDisplayedNumber(whole: string, frac: string)
    requires AllDigits(whole) && AllDigits(frac)
    ensures ResolveSeparators(GroupThousands(whole) + "." + frac) == whole + "." + frac
  {
    var g := GroupThousands(whole);
    var tail := ['.'] + frac;
    var plain := g + tail;
    assert plain == GroupThousands(whole) + "." + frac;
    assert whole + tail == whole + "." + frac;
    DigitsHaveNoSeparator(whole);
    DigitsHaveNoSeparator(frac);
    assert '.' in plain by { assert plain[|g|] == '.'; }
    assert ',' !in tail;
    GroupThousandsShape(whole);
    if |whole| > 3 {
      assert ',' in plain;
      UngroupThousands(whole);
      ReplaceCharConcat(g, tail, ',', "");
      ReplaceCharAbsent(tail, ',', "");
    } else {
      assert ',' !in plain;
    }
  }

  lemma TwoDigitsValue(n: nat)
    requires n < 100
    ensures DigitsValue(TwoDigits(n)) == n
  {
    var f := TwoDigits(n);
    var hi := f[..1];
    assert hi[..0] == [];
    assert DigitsValue(hi) == n / 10 by {
      assert DigitsValue(hi) == DigitsValue(hi[..0]) * 10 + (hi[0] as int - '0' as int);
    }
    assert f[..|f| - 1] == hi;
    assert DigitsValue(f) == DigitsValue(hi) * 10 + (f[1] as int - '0' as int);
  }

  /** The normaliser reads a grouped number with a fractional part behind a symbol exactly. */
  lemma DisplayedDecimal(symbol: string, whole: string, frac: string)
    requires forall i :: 0 <= i < |symbol| ==> !IsPriceChar(symbol[i])
    requires AllDigits(whole) && AllDigits(frac) && |whole| > 0
    ensures CleanPriceDecimal(symbol + (GroupThousands(whole) + "." + frac))
            == Some(Decimal(DigitsValue(whole + frac), |frac|))
  {
    var g := GroupThousands(whole);
    GroupThousandsChars(whole);
    var plain := g + "." + frac;
    var text := symbol + plain;
    assert |text| > 0 by { assert plain[|g|] == '.'; }
    assert forall i :: 0 <= i < |plain| ==> IsPriceChar(plain[i]) by {
      forall i | 0 <= i < |plain| ensures IsPriceChar(plain[i]) {
        if i < |g| { assert plain[i] == g[i]; }
        else if i > |g| { assert plain[i] == frac[i - |g| - 1]; }
      }
    }
    KeepDisplayedNumber(symbol, plain);
    ResolveDisplayedNumber(whole, frac);
    ParsePointed(whole, frac);
  }

  /** Reading back a displayed price gives the displayed cents: the normaliser inverts the
      `,.2f` display format behind any currency symbol without digits, dots or commas. */
  lemma HundredsAndCents(cents: nat, w: nat, f: nat)
    requires w == cents / 100 && f == cents % 100
    ensures w * Pow10(2) + f == cents
  {
    assert Pow10(2) == 100 by { assert Pow10(1) == 10; }
  }

  lemma CleanPriceReadsDisplayedPrice(symbol: string, cents: nat)
    requires forall i :: 0 <= i < |symbol| ==> !IsPriceChar(symbol[i])
    ensures CleanPriceDecimal(FormatPrice(symbol, cents)) == Some(Decimal(cents, 2))
  {
    var whole := NatToString(cents / 100);
    var frac := TwoDigits(cents % 100);
    DisplayedDecimal(symbol, whole, frac);
    DigitsValueConcat(whole, frac);
    TwoDigitsValue(cents % 100);
    HundredsAndCents(cents, DigitsValue(whole), DigitsValue(frac));
  }

  lemma ValueOfCents(u: nat)
    ensures Value(Decimal(u, 2)) == u as real / 100.0
  {
    assert Pow10(2) == 100 by { assert Pow10(1) == 10; }
  }

  /** The displayed amount as the float the scripts store. */
  lemma CleanPriceReadsDisplayedAmount(symbol: string, cents: nat)
    requires forall i :: 0 <= i < |symbol| ==> !IsPriceChar(symbol[i])
    ensures CleanPrice(FormatPrice(symbol, cents)) == Some(cents as real / 100.0)
  {
    var text := FormatPrice(symbol, cents);
    CleanPriceReadsDisplayedPrice(symbol, cents);
    CleanPriceValue(text);
    SomeCents(CleanPrice(text), cents);
  }

  lemma SomeCents(p: Option<real>, cents: nat)
    requires p == Some(Value(Decimal(cents, 2)))
    ensures p == Some(cents as real / 100.0)
  {
    ValueOfCents(cents);
  }

  /** A comma-grouped integer without a dot: the last group has three digits, so the commas are
      thousands separators. */
  lemma GroupedIntegerDigits(s: string)
    requires AllDigits(s) && |s| > 0
    ensures CleanPriceDecimal(GroupThousands(s)) == Some(Decimal(DigitsValue(s), 0))
  {
    var g := GroupThousands(s);
    GroupThousandsChars(s);
    KeepPriceCharsId(g);
    DigitsHaveNoSeparator(s);
    assert '.' !in g by {
      forall k | 0 <= k < |g| ensures g[k] != '.' {
        assert IsDigit(g[k]) || g[k] == ',';
      }
    }
    GroupThousandsShape(s);
    if |s| > 3 {
      var hi := GroupThousands(s[..|s| - 3]);
      var lo := s[|s| - 3..];
      GroupThousandsStep(s);
      assert g == hi + [','] + lo;
      DigitsHaveNoSeparator(lo);
      LastPieceAfter(hi, ',', lo);
      UngroupThousands(s);
      assert ResolveSeparators(g) == s;
    }
    ParsePlain(s);
  }

  /** `clean_price` reads a comma-grouped integer as that integer ("1,234,567" is 1234567). */
  lemma GroupedIntegerReads(s: string)
    requires AllDigits(s) && |s| > 0
    ensures CleanPrice(GroupThousands(s)) == Some(DigitsValue(s) as real)
  {
    GroupedIntegerDigits(s);
    CleanPriceValue(GroupThousands(s));
    SomeWhole(CleanPrice(GroupThousands(s)), DigitsValue(s));
  }

  lemma SomeWhole(p: Option<real>, u: nat)
    requires p == Some(Value(Decimal(u, 0)))
    ensures p == Some(u as real)
  {
  }
}

