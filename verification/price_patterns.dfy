/** The few fixed regular expressions the scrapers use to find prices in text, written out by
    hand over ASCII digits and whitespace. */
module PricePatterns {
  import opened Wrappers
  import opened Text
  import opened PriceText

  /** Where the run of digits starting at `i` ends (`\d+` is greedy). */
  function DigitsEnd(t: string, i: nat): (e: nat)
    requires i <= |t|
    ensures i <= e <= |t|
    ensures forall k :: i <= k < e ==> IsDigit(t[k])
    ensures e < |t| ==> !IsDigit(t[e])
    decreases |t| - i
  {
    if i < |t| && IsDigit(t[i]) then DigitsEnd(t, i + 1) else i
  }

  /** Where the run of whitespace starting at `i` ends (`\s*`). */
  function SpacesEnd(t: string, i: nat): (e: nat)
    requires i <= |t|
    ensures i <= e <= |t|
    ensures forall k :: i <= k < e ==> IsSpace(t[k])
    ensures e < |t| ==> !IsSpace(t[e])
    decreases |t| - i
  {
    if i < |t| && IsSpace(t[i]) then SpacesEnd(t, i + 1) else i
  }

  /** `(?:\.\d{2})?` at `e`: past a dot and two digits when they are there. */
  function CentsEnd(t: string, e: nat): (r: nat)
    requires e <= |t|
    ensures r == e || (r == e + 3 <= |t| && t[e] == '.' && IsDigit(t[e + 1]) && IsDigit(t[e + 2]))
  {
    if e + 3 <= |t| && t[e] == '.' && IsDigit(t[e + 1]) && IsDigit(t[e + 2]) then e + 3 else e
  }

  // ---------------------------------------------------------------- a price mark anywhere

  /** One of `\$\d+`, `€\d+`, `£\d+`, `\d+\s*<unit>` starts at `i`. */
  predicate MarkAt(t: string, i: nat, unit: string)
    requires i < |t|
  {
    || ((t[i] == '$' || t[i] == '€' || t[i] == '£') && i + 1 < |t| && IsDigit(t[i + 1]))
    || (IsDigit(t[i]) && OccursAt(unit, t, SpacesEnd(t, DigitsEnd(t, i))))
  }

  /** `re.search(r'\$\d+|\d+\s*USD|€\d+|£\d+', t)` with `unit` "USD", or the lower-case pattern
      with "usd". */
  predicate HasPriceMark(t: string, unit: string) {
    exists i :: 0 <= i < |t| && MarkAt(t, i, unit)
  }

  // ---------------------------------------------------------------- '$N' and 'N USD' amounts

  /** A captured amount: digits, then optionally a dot and exactly two digits. */
  predicate IsAmount(g: string) {
    && |g| > 0
    && IsDigit(g[0])
    && (forall k :: 0 <= k < |g| ==> IsDigit(g[k]) || (g[k] == '.' && k == |g| - 3))
  }

  /** A digit run with the cents after it, if any, is an amount. */
  lemma AmountSlice(t: string, a: nat, d: nat)
    requires a < d <= |t|
    requires forall k :: a <= k < d ==> IsDigit(t[k])
    ensures IsAmount(t[a..CentsEnd(t, d)])
  {
    var c := CentsEnd(t, d);
    var g := t[a..c];
    forall k | 0 <= k < |g| ensures IsDigit(g[k]) || (g[k] == '.' && k == |g| - 3) {
      assert g[k] == t[a + k];
    }
    assert g[0] == t[a];
  }

  /** The match of `\$(\d+(?:\.\d{2})?)|(\d+(?:\.\d{2})?)\s*USD` starting at `i`, if any: where
      it ends and the group it captures. */
  function AmountAt(t: string, i: nat): (r: Option<(nat, string)>)
    requires i < |t|
    ensures r.Some? ==> i < r.value.0 <= |t| && IsAmount(r.value.1)
  {
    if t[i] == '$' && i + 1 < |t| && IsDigit(t[i + 1]) then
      var d := DigitsEnd(t, i + 1);
      AmountSlice(t, i + 1, d);
      var e := CentsEnd(t, d);
      Some((e, t[i + 1..e]))
    else if IsDigit(t[i]) then
      var d := DigitsEnd(t, i);
      AmountSlice(t, i, d);
      var c := CentsEnd(t, d);
      if c > d && OccursAt("USD", t, SpacesEnd(t, c)) then Some((SpacesEnd(t, c) + 3, t[i..c]))
      else if OccursAt("USD", t, SpacesEnd(t, d)) then Some((SpacesEnd(t, d) + 3, t[i..d]))
      else None
    else None
  }

  /** `re.findall` of that pattern from `i` on: the captured amounts of the non-overlapping
      matches, left to right. */
  function Amounts(t: string, i: nat): (r: seq<string>)
    requires i <= |t|
    ensures forall k :: 0 <= k < |r| ==> IsAmount(r[k])
    decreases |t| - i
  {
    if i == |t| then []
    else
      match AmountAt(t, i)
      case Some(m) => [m.1] + Amounts(t, m.0)
      case None => Amounts(t, i + 1)
  }

  /** Every captured amount reads as a price. */
  lemma AmountParses(g: string)
    requires IsAmount(g)
    ensures CleanPrice(g).Some?
  {
    assert forall k :: 0 <= k < |g| ==> IsPriceChar(g[k]);
    KeepPriceCharsId(g);
    assert ',' !in g;
    assert ResolveSeparators(g) == g;
    ParseAcceptsNumerals(g);
    assert IsDigit(g[0]);
  }

  // ---------------------------------------------------------------- cedi amounts

  /** `(?:,\d{3})*` at `e`: past every comma followed by three digits. */
  function GroupsEnd(t: string, e: nat): (r: nat)
    requires e <= |t|
    ensures e <= r <= |t|
    decreases |t| - e
  {
    if e + 4 <= |t| && t[e] == ',' && IsDigit(t[e + 1]) && IsDigit(t[e + 2]) && IsDigit(t[e + 3])
    then GroupsEnd(t, e + 4)
    else e
  }

  /** `re.findall(r'₵(\d+(?:,\d{3})*(?:\.\d{2})?)', t)[0]` searching from `i`: the group of the
      first '₵' followed by a digit. */
  function FirstCediAmount(t: string, i: nat): (r: Option<string>)
    requires i <= |t|
    ensures r.Some? ==> |r.value| > 0 && IsDigit(r.value[0])
    ensures r.None? <==> forall k :: i <= k < |t| - 1 ==> !(t[k] == '₵' && IsDigit(t[k + 1]))
    decreases |t| - i
  {
    if i + 1 >= |t| then None
    else if t[i] == '₵' && IsDigit(t[i + 1]) then
      var e := CentsEnd(t, GroupsEnd(t, DigitsEnd(t, i + 1)));
      Some(t[i + 1..e])
    else FirstCediAmount(t, i + 1)
  }

  // ---------------------------------------------------------------- removing price marks

  /** Where a mark of `₵\d+|GHS\s*\d+|\$\d+` that starts at 0 ends, or 0 when none starts there. */
  function MarkEnd(t: string): (e: nat)
    ensures e <= |t|
    ensures e > 0 ==> e > 1
  {
    if 1 < |t| && (t[0] == '₵' || t[0] == '$') && IsDigit(t[1]) then DigitsEnd(t, 1)
    else if OccursAt("GHS", t, 0) && SpacesEnd(t, 3) < |t| && IsDigit(t[SpacesEnd(t, 3)]) then
      DigitsEnd(t, SpacesEnd(t, 3))
    else 0
  }

  /** `re.sub(r'₵\d+|GHS\s*\d+|\$\d+', '', t)`: the text with every mark, found left to right,
      removed. */
  function RemovePriceMarks(t: string): (r: string)
    ensures |r| <= |t|
    decreases |t|
  {
    if |t| == 0 then ""
    else if MarkEnd(t) > 0 then RemovePriceMarks(t[MarkEnd(t)..])
    else [t[0]] + RemovePriceMarks(t[1..])
  }

  /** A text with no '₵', no '$' and no "GHS" is left as it is. */
  lemma {:induction false} NoMarksKept(t: string)
    requires '₵' !in t && '$' !in t && !Contains(t, "GHS")
    ensures RemovePriceMarks(t) == t
    decreases |t|
  {
    if |t| > 0 {
      assert MarkEnd(t) == 0;
      var u := t[1..];
      assert '₵' !in u && '$' !in u;
      if Contains(u, "GHS") {
        var i: nat :| i <= |u| && OccursAt("GHS", u, i);
        assert t[i + 1..i + 4] == u[i..i + 3];
        assert OccursAt("GHS", t, i + 1);
      }
      NoMarksKept(u);
    }
  }
  /** A maximal run of digits starting at `i` ends exactly where the given digits end. */
  lemma DigitsEndAt(t: string, i: nat, n: nat)
    requires i + n <= |t| && forall k :: i <= k < i + n ==> IsDigit(t[k])
    requires i + n == |t| || !IsDigit(t[i + n])
    ensures DigitsEnd(t, i) == i + n
  {
    var e := DigitsEnd(t, i);
    if e < i + n {
      assert false;
    }
  }

  /** A maximal run of whitespace starting at `i` ends exactly where the given spaces end. */
  lemma SpacesEndAt(t: string, i: nat, n: nat)
    requires i + n <= |t| && forall k :: i <= k < i + n ==> IsSpace(t[k])
    requires i + n == |t| || !IsSpace(t[i + n])
    ensures SpacesEnd(t, i) == i + n
  {
    var e := SpacesEnd(t, i);
    if e < i + n {
      assert false;
    }
  }

  /** A mark of the pattern: '₵' or '$', or "GHS" followed by any whitespace. */
  predicate IsMarkPrefix(m: string) {
    || m == "₵" || m == "$"
    || (|m| >= 3 && m[..3] == "GHS" && forall k :: 3 <= k < |m| ==> IsSpace(m[k]))
  }

  /** A mark followed by a maximal run of digits ends where the digits end. */
  lemma MarkEndAt(m: string, d: string, b: string)
    requires IsMarkPrefix(m)
    requires |d| > 0 && forall k :: 0 <= k < |d| ==> IsDigit(d[k])
    requires b == [] || !IsDigit(b[0])
    ensures MarkEnd(m + d + b) == |m| + |d|
  {
    var t := m + d + b;
    forall k | |m| <= k < |m| + |d|
      ensures IsDigit(t[k])
    {
      assert t[k] == d[k - |m|];
    }
    if |m| + |d| < |t| {
      assert t[|m| + |d|] == b[0];
    }
    DigitsEndAt(t, |m|, |d|);
    if m == "₵" || m == "$" {
      assert t[0] == m[0] && t[1] == d[0];
    } else {
      assert t[0] == 'G';
      assert t[..3] == m[..3];
      assert OccursAt("GHS", t, 0);
      forall k | 3 <= k < |m|
        ensures IsSpace(t[k])
      {
        assert t[k] == m[k];
      }
      assert t[|m|] == d[0];
      SpacesEndAt(t, 3, |m| - 3);
    }
  }

  /** A mark and the whole run of digits after it are removed: "₵500 phone" loses "₵500". */
  lemma LeadingMarkDropped(m: string, d: string, b: string)
    requires IsMarkPrefix(m)
    requires |d| > 0 && forall k :: 0 <= k < |d| ==> IsDigit(d[k])
    requires b == [] || !IsDigit(b[0])
    ensures RemovePriceMarks(m + d + b) == RemovePriceMarks(b)
  {
    MarkEndAt(m, d, b);
    assert (m + d + b)[|m| + |d|..] == b;
  }

  /** A first character at which no mark starts is kept. */
  lemma PlainCharKept(t: string)
    requires |t| > 0 && MarkEnd(t) == 0
    ensures RemovePriceMarks(t) == [t[0]] + RemovePriceMarks(t[1..])
  {
  }

  /** No mark starts at a character other than '₵', '$' and 'G'. */
  lemma UnmarkableChar(t: string)
    requires |t| > 0 && t[0] != '₵' && t[0] != '$' && t[0] != 'G'
    ensures MarkEnd(t) == 0
  {
    assert !OccursAt("GHS", t, 0);
  }

  /** Text at none of whose positions a mark starts is kept as it is. This covers a '₵' or '$'
      not followed by a digit and a "G" that does not begin "GHS" followed by digits: "Phone ₵500"
      becomes "Phone ", and "Galaxy $ 5" stays whole. */
  lemma {:induction false} PlainPrefixKept(a: string, b: string)
    requires forall k :: 0 <= k < |a| ==> MarkEnd((a + b)[k..]) == 0
    ensures RemovePriceMarks(a + b) == a + RemovePriceMarks(b)
    decreases |a|
  {
    if |a| > 0 {
      MarkFreeTail(a, b);
      PlainCharKept(a + b);
      PlainPrefixKept(a[1..], b);
      HeadTail(a, RemovePriceMarks(b));
    } else {
      assert a + b == b;
    }
  }

  /** Putting the first character back in front of the rest. */
  lemma HeadTail(a: string, r: string)
    requires |a| > 0
    ensures [a[0]] + (a[1..] + r) == a + r
  {
    assert a == [a[0]] + a[1..];
  }

  /** Dropping the first character of a mark-free prefix leaves one. */
  lemma MarkFreeTail(a: string, b: string)
    requires |a| > 0
    requires forall k :: 0 <= k < |a| ==> MarkEnd((a + b)[k..]) == 0
    ensures MarkEnd(a + b) == 0 && (a + b)[0] == a[0] && (a + b)[1..] == a[1..] + b
    ensures forall k :: 0 <= k < |a[1..]| ==> MarkEnd((a[1..] + b)[k..]) == 0
  {
    assert (a + b)[0..] == a + b;
    forall k | 0 <= k < |a[1..]|
      ensures MarkEnd((a[1..] + b)[k..]) == 0
    {
      assert (a[1..] + b)[k..] == (a + b)[k + 1..];
    }
  }

  /** A text with no '₵', '$' or 'G' keeps any text after it: "Phone ₵500" becomes "Phone ". */
  lemma PlainTextPrefixKept(a: string, b: string)
    requires '₵' !in a && '$' !in a && 'G' !in a
    ensures RemovePriceMarks(a + b) == a + RemovePriceMarks(b)
  {
    forall k | 0 <= k < |a|
      ensures MarkEnd((a + b)[k..]) == 0
    {
      assert (a + b)[k..][0] == a[k];
      UnmarkableChar((a + b)[k..]);
    }
    PlainPrefixKept(a, b);
  }

  /** A '$' that no digit follows is not a mark: "Galaxy $ 5" keeps its "$ 5". */
  lemma SpacedDollarKept()
    ensures RemovePriceMarks("Galaxy $ 5") == "Galaxy $ 5"
  {
    var t := "Galaxy $ 5";
    forall k | 0 <= k < |t|
      ensures MarkEnd(t[k..]) == 0
    {
      if t[k] == '$' {
        assert t[k..][1] == ' ';
      } else if t[k] == 'G' {
        assert t[k..][1] == 'a';
        assert !OccursAt("GHS", t[k..], 0);
      } else {
        UnmarkableChar(t[k..]);
      }
    }
    assert t + "" == t;
    PlainPrefixKept(t, "");
  }
}
