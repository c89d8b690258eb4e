/** String helpers with the meaning Python gives the operations the scripts use:
    `in` on strings, `lower`, `upper`, `title`, `strip`, `split`, `replace`, `zfill`, slicing.
    Case mapping is modelled on ASCII letters only. */
module Text {
  import opened Wrappers

  // ---------------------------------------------------------------- characters

  /** An ASCII decimal digit (`\d` and `str.isdigit` on the inputs modelled here). */
  predicate IsDigit(c: char) {
    '0' <= c <= '9'
  }

  /** Python's whitespace test, shared by `str.split()`, `str.strip()` and the regex class `\s`. */
  predicate IsSpace(c: char) {
    || c == ' '
    || ('\t' <= c <= '\r')
    || ('\U{1C}' <= c <= '\U{1F}')
    || c == '\U{85}' || c == '\U{A0}' || c == '\U{1680}'
    || ('\U{2000}' <= c <= '\U{200A}')
    || c == '\U{2028}' || c == '\U{2029}' || c == '\U{202F}' || c == '\U{205F}' || c == '\U{3000}'
  }

  predicate IsUpperAscii(c: char) {
    'A' <= c <= 'Z'
  }

  predicate IsLowerAscii(c: char) {
    'a' <= c <= 'z'
  }

  /** A letter that has case (what `str.title` treats as part of a word). */
  predicate IsLetter(c: char) {
    IsUpperAscii(c) || IsLowerAscii(c)
  }

  function LowerChar(c: char): char {
    if IsUpperAscii(c) then (c as int + 32) as char else c
  }

  function UpperChar(c: char): char {
    if IsLowerAscii(c) then (c as int - 32) as char else c
  }

  predicate AllDigits(s: string) {
    forall i :: 0 <= i < |s| ==> IsDigit(s[i])
  }

  predicate AllSpace(s: string) {
    forall i :: 0 <= i < |s| ==> IsSpace(s[i])
  }

  predicate NoSpace(s: string) {
    forall i :: 0 <= i < |s| ==> !IsSpace(s[i])
  }

  // ---------------------------------------------------------------- case mapping

  /** `str.lower()`. */
  function Lower(s: string): (r: string)
    ensures |r| == |s|
    ensures forall i :: 0 <= i < |s| ==> r[i] == LowerChar(s[i])
  {
    seq(|s|, i requires 0 <= i < |s| => LowerChar(s[i]))
  }

  /** `str.upper()`. */
  function Upper(s: string): (r: string)
    ensures |r| == |s|
    ensures forall i :: 0 <= i < |s| ==> r[i] == UpperChar(s[i])
  {
    seq(|s|, i requires 0 <= i < |s| => UpperChar(s[i]))
  }

  /** The character `str.title()` puts at position `i`: a letter opens a word, and is upper-cased,
      exactly when the character before it is not a letter. */
  function TitleCharAt(s: string, i: nat): char
    requires i < |s|
  {
    if !IsLetter(s[i]) then s[i]
    else if i > 0 && IsLetter(s[i - 1]) then LowerChar(s[i])
    else UpperChar(s[i])
  }

  /** `str.title()`. */
  function Title(s: string): (r: string)
    ensures |r| == |s|
    ensures forall i :: 0 <= i < |s| ==> r[i] == TitleCharAt(s, i)
  {
    seq(|s|, i requires 0 <= i < |s| => TitleCharAt(s, i))
  }

  lemma TitleKeepsNonLetters(s: string, c: char)
    requires !IsLetter(c)
    ensures c in Title(s) <==> c in s
  {
    var t := Title(s);
    if c in s {
      var i :| 0 <= i < |s| && s[i] == c;
      assert t[i] == c;
    }
    if c in t {
      var i :| 0 <= i < |t| && t[i] == c;
      assert s[i] == c;
    }
  }

  // ---------------------------------------------------------------- substrings

  /** `p` occurs in `s` starting at index `i`. */
  predicate OccursAt(p: string, s: string, i: nat) {
    i + |p| <= |s| && s[i..i + |p|] == p
  }

  /** Python's `p in s` for strings. */
  predicate Contains(s: string, p: string) {
    exists i: nat :: i <= |s| && OccursAt(p, s, i)
  }

  lemma ContainsWitness(s: string, p: string, i: nat)
    requires OccursAt(p, s, i)
    ensures Contains(s, p)
  {
  }

  /** Containment is transitive: a text that contains "4tb" contains "tb". */
  lemma ContainsTrans(s: string, p: string, q: string)
    requires Contains(s, p) && Contains(p, q)
    ensures Contains(s, q)
  {
    var i: nat :| i <= |s| && OccursAt(p, s, i);
    var j: nat :| j <= |p| && OccursAt(q, p, j);
    forall k | 0 <= k < |q|
      ensures s[i + j + k] == q[k]
    {
      assert q[k] == p[j + k] == s[i..i + |p|][j + k];
    }
    assert s[i + j..i + j + |q|] == q;
    assert OccursAt(q, s, i + j);
  }

  /** A text contains itself. */
  lemma ContainsSelf(s: string)
    ensures Contains(s, s)
  {
    assert OccursAt(s, s, 0);
  }

  /** A text contains each of its parts. */
  lemma ContainsConcat(a: string, b: string, c: string)
    ensures Contains(a + b + c, b)
  {
    assert (a + b + c)[|a|..|a| + |b|] == b;
    assert OccursAt(b, a + b + c, |a|);
  }

  /** A text made of five parts contains the second and the fourth. */
  lemma ContainsParts(a: string, x: string, b: string, y: string, c: string)
    ensures Contains(a + x + b + y + c, x) && Contains(a + x + b + y + c, y)
  {
    ContainsConcat(a, x, b + y + c);
    assert a + x + b + y + c == a + x + (b + y + c);
    ContainsConcat(a + x + b, y, c);
  }

  /** Lower-casing keeps an occurrence, lower-cased. */
  lemma LowerContains(s: string, p: string)
    requires Contains(s, p)
    ensures Contains(Lower(s), Lower(p))
  {
    var i: nat :| i <= |s| && OccursAt(p, s, i);
    forall k | 0 <= k < |p| ensures Lower(s)[i + k] == Lower(p)[k] {
      assert s[i + k] == p[k];
    }
    assert Lower(s)[i..i + |p|] == Lower(p);
    assert OccursAt(Lower(p), Lower(s), i);
  }

  /** A one-character pattern occurs at `j` exactly when the character is there. */
  lemma OccursAtChar(s: string, c: char, j: nat)
    requires j < |s|
    ensures OccursAt([c], s, j) <==> s[j] == c
  {
    if s[j] == c {
      assert s[j..j + 1] == [c];
    }
  }

  /** The first occurrence of a character, found by `IndexOf`. */
  lemma IndexOfChar(s: string, c: char)
    ensures IndexOf(s, [c]).None? <==> c !in s
    ensures IndexOf(s, [c]).Some? ==>
              var i := IndexOf(s, [c]).value;
              i < |s| && s[i] == c && c !in s[..i]
  {
    ContainsChar(s, c);
    match IndexOf(s, [c])
    case None =>
    case Some(i) =>
      OccursAtChar(s, c, i);
      forall j | 0 <= j < i
        ensures s[j] != c
      {
        OccursAtChar(s, c, j);
      }
  }

  /** A one-character pattern is contained exactly when the character occurs. */
  lemma ContainsChar(s: string, c: char)
    ensures Contains(s, [c]) <==> c in s
  {
    if c in s {
      var i :| 0 <= i < |s| && s[i] == c;
      assert OccursAt([c], s, i);
    }
    if Contains(s, [c]) {
      var i: nat :| i <= |s| && OccursAt([c], s, i);
      assert s[i] == c;
    }
  }

  /** The index of the first occurrence of `p` in `s`, searching from `k` (`str.find`). */
  function IndexOfFrom(s: string, p: string, k: nat): (r: Option<nat>)
    requires k <= |s| + 1
    ensures r.Some? ==> k <= r.value <= |s| && OccursAt(p, s, r.value)
    ensures r.Some? ==> forall j: nat :: k <= j < r.value ==> !OccursAt(p, s, j)
    ensures r.None? ==> forall j: nat :: k <= j <= |s| ==> !OccursAt(p, s, j)
    decreases |s| + 1 - k
  {
    if k > |s| then None
    else if OccursAt(p, s, k) then Some(k)
    else IndexOfFrom(s, p, k + 1)
  }

  function IndexOf(s: string, p: string): (r: Option<nat>)
    ensures r.Some? ==> r.value <= |s| && OccursAt(p, s, r.value)
    ensures r.Some? ==> forall j: nat :: j < r.value ==> !OccursAt(p, s, j)
    ensures r.None? <==> !Contains(s, p)
  {
    IndexOfFrom(s, p, 0)
  }

  // ---------------------------------------------------------------- strip and split

  /** `s.lstrip()`. */
  function StripLeft(s: string): (r: string)
    ensures |r| <= |s| && r == s[|s| - |r|..]
    ensures |r| > 0 ==> !IsSpace(r[0])
    ensures AllSpace(s[..|s| - |r|])
  {
    if |s| > 0 && IsSpace(s[0]) then
      var r := StripLeft(s[1..]);
      assert s[..|s| - |r|] == [s[0]] + s[1..][..|s[1..]| - |r|];
      r
    else s
  }

  /** `s.rstrip()`. */
  function StripRight(s: string): (r: string)
    ensures |r| <= |s| && r == s[..|r|]
    ensures |r| > 0 ==> !IsSpace(r[|r| - 1])
    ensures AllSpace(s[|r|..])
  {
    if |s| > 0 && IsSpace(s[|s| - 1]) then
      var r := StripRight(s[..|s| - 1]);
      assert s[|r|..] == s[..|s| - 1][|r|..] + [s[|s| - 1]];
      r
    else s
  }

  /** The number of whitespace characters `lstrip` removes from the front of `s`. */
  function LeadingSpace(s: string): (n: nat)
    ensures n <= |s| && AllSpace(s[..n])
    ensures n < |s| ==> !IsSpace(s[n])
  {
    |s| - |StripLeft(s)|
  }

  /** `s.strip()`: the text between the leading and the trailing whitespace. */
  function Strip(s: string): (r: string)
    ensures LeadingSpace(s) + |r| <= |s|
    ensures r == s[LeadingSpace(s)..LeadingSpace(s) + |r|]
    ensures AllSpace(s[LeadingSpace(s) + |r|..])
    ensures |r| > 0 ==> !IsSpace(r[0]) && !IsSpace(r[|r| - 1])
  {
    var l := StripLeft(s);
    var r := StripRight(l);
    SliceOfSuffix(s, |s| - |l|, |r|);
    r
  }

  /** Slicing a suffix of `s` is slicing `s` further along. */
  lemma SliceOfSuffix(s: string, a: nat, n: nat)
    requires a + n <= |s|
    ensures s[a..][..n] == s[a..a + n]
    ensures s[a..][n..] == s[a + n..]
  {
  }

  /** The longest prefix of `s` without whitespace. */
  function WordPrefix(s: string): (r: string)
    ensures |r| <= |s| && r == s[..|r|] && NoSpace(r)
    ensures |r| < |s| ==> IsSpace(s[|r|])
  {
    if |s| == 0 || IsSpace(s[0]) then [] else [s[0]] + WordPrefix(s[1..])
  }

  /** `s.split()[0]` when `s.split()` is non-empty: the first maximal run of non-whitespace,
      which starts where the leading whitespace ends. */
  function FirstWord(s: string): (r: Option<string>)
    ensures r.None? <==> AllSpace(s)
    ensures r.Some? ==>
              var a := LeadingSpace(s);
              && |r.value| > 0 && NoSpace(r.value)
              && a + |r.value| <= |s| && s[a..a + |r.value|] == r.value
              && (a + |r.value| == |s| || IsSpace(s[a + |r.value|]))
  {
    var a := LeadingSpace(s);
    if a == |s| then
      SpacePrefixWhole(s, a);
      None
    else
      Some(WordFrom(s, a))
  }

  /** A whitespace prefix as long as the text is the whole text. */
  lemma SpacePrefixWhole(s: string, a: nat)
    requires a == |s| && AllSpace(s[..a])
    ensures AllSpace(s)
  {
    assert s[..a] == s;
  }

  /** The word starting at a non-space position `a` of `s`: a non-empty slice of `s` without
      whitespace that ends at a space or at the end. */
  function WordFrom(s: string, a: nat): (w: string)
    requires a < |s| && !IsSpace(s[a])
    ensures !AllSpace(s) && |w| > 0 && NoSpace(w)
    ensures a + |w| <= |s| && s[a..a + |w|] == w
    ensures a + |w| == |s| || IsSpace(s[a + |w|])
  {
    var t := s[a..];
    var w := WordPrefix(t);
    assert |w| > 0 by { assert !IsSpace(t[0]); }
    assert w == s[a..a + |w|] by { assert t[..|w|] == s[a..a + |w|]; }
    if a + |w| < |s| then
      assert t[|w|] == s[a + |w|];
      w
    else w
  }

  /** `s[:n]` for a non-negative `n`. */
  function Take(s: string, n: nat): (r: string)
    ensures |r| == if n <= |s| then n else |s|
    ensures r == s[..|r|]
  {
    if n <= |s| then s[..n] else s
  }

  /** `s.split(sep)` for a non-empty separator: pieces between non-overlapping occurrences,
      found from the left. */
  function SplitOn(s: string, sep: string): (r: seq<string>)
    requires |sep| > 0
    ensures |r| >= 1
    ensures !Contains(s, sep) ==> r == [s]
    decreases |s|
  {
    match IndexOf(s, sep)
    case None => [s]
    case Some(i) => [s[..i]] + SplitOn(s[i + |sep|..], sep)
  }

  /** `s.split(sep)[-1]`. */
  function LastPiece(s: string, sep: string): string
    requires |sep| > 0
  {
    var pieces := SplitOn(s, sep);
    pieces[|pieces| - 1]
  }

  /** For a one-character separator the last piece is the text after the last occurrence of it:
      a suffix of `s` without `c`, preceded by `c` when `c` occurs at all. */
  lemma LastPieceOfChar(s: string, c: char)
    ensures var p := LastPiece(s, [c]);
            && |p| <= |s| && p == s[|s| - |p|..] && c !in p
            && (c in s ==> |p| < |s| && s[|s| - |p| - 1] == c)
            && (c !in s ==> p == s)
  {
    var k := LastCharEnd(s, c);
    LastPieceAfterLast(s, c);
    assert c !in s[k..] by {
      forall j | 0 <= j < |s[k..]| ensures s[k..][j] != c { assert s[k..][j] == s[k + j]; }
    }
    if c in s {
      var j :| 0 <= j < |s| && s[j] == c;
    } else {
      assert s[0..] == s;
    }
  }

  /** Where the text after the last occurrence of `c` starts: just past that occurrence, or 0
      when there is none. */
  function LastCharEnd(s: string, c: char): (k: nat)
    ensures k <= |s|
    ensures forall j :: k <= j < |s| ==> s[j] != c
    ensures k > 0 ==> s[k - 1] == c
    decreases |s|
  {
    if |s| == 0 then 0
    else if s[|s| - 1] == c then |s|
    else LastCharEnd(s[..|s| - 1], c)
  }

  /** Those three facts determine where the last piece starts. */
  lemma LastCharEndUnique(s: string, c: char, k: nat)
    requires k <= |s|
    requires forall j :: k <= j < |s| ==> s[j] != c
    requires k > 0 ==> s[k - 1] == c
    ensures k == LastCharEnd(s, c)
  {
  }

  /** The last piece for a one-character separator starts where `LastCharEnd` says. */
  lemma {:induction false} LastPieceAfterLast(s: string, c: char)
    ensures LastPiece(s, [c]) == s[LastCharEnd(s, c)..]
    decreases |s|
  {
    if c !in s {
      LastPieceNoChar(s, c);
      LastCharEndUnique(s, c, 0);
      assert s[0..] == s;
    } else {
      var i := CharIndex(s, c);
      LastPieceSkips(s, c);
      LastPieceAfterLast(s[i + 1..], c);
      EndPastOccurrence(s, c, i);
    }
  }

  /** Past an occurrence of `c`, the last piece starts where it starts in the rest. */
  lemma EndPastOccurrence(s: string, c: char, i: nat)
    requires i < |s| && s[i] == c
    ensures s[i + 1..][LastCharEnd(s[i + 1..], c)..] == s[LastCharEnd(s, c)..]
  {
    var rest := s[i + 1..];
    var m := LastCharEnd(rest, c);
    forall j | i + 1 + m <= j < |s| ensures s[j] != c { assert s[j] == rest[j - i - 1]; }
    assert m > 0 ==> s[i + m] == rest[m - 1];
    LastCharEndUnique(s, c, i + 1 + m);
    SliceOfSuffix(s, i + 1, m);
  }

  /** Without `c` the text is its own last piece. */
  lemma LastPieceNoChar(s: string, c: char)
    requires c !in s
    ensures LastPiece(s, [c]) == s
  {
    ContainsChar(s, c);
  }

  /** The position of the first occurrence of `c`: `s.index(c)`. */
  function CharIndex(s: string, c: char): (i: nat)
    requires c in s
    ensures i < |s| && s[i] == c
  {
    IndexOfChar(s, c);
    IndexOf(s, [c]).value
  }

  /** Past the first occurrence of `c`, the last piece is that of the rest of the text. */
  lemma LastPieceSkips(s: string, c: char)
    requires c in s
    ensures LastPiece(s, [c]) == LastPiece(s[CharIndex(s, c) + 1..], [c])
  {
    var i := CharIndex(s, c);
    IndexOfChar(s, c);
    FoundChar(s, c, i);
    SplitAtIndex(s, c, i);
    var tail := SplitOn(s[i + 1..], [c]);
    var parts := SplitOn(s, [c]);
    assert parts[|parts| - 1] == tail[|tail| - 1];
  }

  /** The last piece after a separator that the final part does not contain is that part. */
  lemma LastPieceAfter(a: string, c: char, z: string)
    requires c !in z
    ensures LastPiece(a + [c] + z, [c]) == z
  {
    var s := a + [c] + z;
    LastPieceOfChar(s, c);
    var p := LastPiece(s, [c]);
    assert c in s by { assert s[|a|] == c; }
    assert s[|s| - |z|..] == z;
  }

  /** `sep.join(lines)`. */
  function Join(lines: seq<string>, sep: string): string {
    if |lines| == 0 then ""
    else if |lines| == 1 then lines[0]
    else lines[0] + sep + Join(lines[1..], sep)
  }

  /** A joined text contains each of its lines. */
  lemma {:induction false} JoinContains(lines: seq<string>, sep: string, k: nat)
    requires k < |lines|
    ensures Contains(Join(lines, sep), lines[k])
    decreases |lines|
  {
    if |lines| == 1 {
      ContainsSelf(lines[0]);
    } else {
      var rest := Join(lines[1..], sep);
      assert Join(lines, sep) == lines[0] + sep + rest;
      if k == 0 {
        ContainsConcat("", lines[0], sep + rest);
        assert "" + lines[0] + (sep + rest) == lines[0] + sep + rest;
      } else {
        JoinContains(lines[1..], sep, k - 1);
        ContainsConcat(lines[0] + sep, rest, "");
        assert lines[0] + sep + rest + "" == lines[0] + sep + rest;
        ContainsTrans(Join(lines, sep), rest, lines[k]);
      }
    }
  }

  /** Splitting a joined text on a one-character separator that no line contains gives the
      lines back. */
  lemma {:induction false} SplitJoin(lines: seq<string>, c: char)
    requires |lines| >= 1
    requires forall k :: 0 <= k < |lines| ==> c !in lines[k]
    ensures SplitOn(Join(lines, [c]), [c]) == lines
    decreases |lines|
  {
    if |lines| == 1 {
      ContainsChar(lines[0], c);
    } else {
      var a := lines[0];
      var rest := Join(lines[1..], [c]);
      assert Join(lines, [c]) == a + [c] + rest;
      SplitAtFirst(a, c, rest);
      SplitJoin(lines[1..], c);
      assert lines == [a] + lines[1..];
    }
  }

  /** Splitting a text whose first `c` follows `a` gives `a`, then the pieces of the rest. */
  lemma SplitAtFirst(a: string, c: char, rest: string)
    requires c !in a
    ensures SplitOn(a + [c] + rest, [c]) == [a] + SplitOn(rest, [c])
  {
    var s := a + [c] + rest;
    assert OccursAt([c], s, |a|) by { assert s[|a|..|a| + 1] == [c]; }
    forall j: nat | j < |a|
      ensures !OccursAt([c], s, j)
    {
      assert s[j] == a[j];
    }
    assert IndexOf(s, [c]) == Some(|a|);
    assert s[..|a|] == a;
    assert s[|a| + 1..] == rest;
  }

  /** Joining the pieces of a split on a one-character separator gives the text back. */
  lemma {:induction false} JoinSplit(s: string, c: char)
    ensures Join(SplitOn(s, [c]), [c]) == s
    decreases |s|
  {
    match IndexOf(s, [c])
    case None =>
      assert SplitOn(s, [c]) == [s];
    case Some(i) =>
      FoundChar(s, c, i);
      SplitAtIndex(s, c, i);
      JoinSplit(s[i + 1..], c);
      JoinCons(s[..i], SplitOn(s[i + 1..], [c]), [c]);
      Reassemble(s, c, i);
  }

  /** A text is the part before index `i`, the character there and the part after it. */
  lemma Reassemble(s: string, c: char, i: nat)
    requires i < |s| && s[i] == c
    ensures s[..i] + [c] + s[i + 1..] == s
  {
  }

  /** The first `c`, at index `i`, is inside the text. */
  lemma FoundChar(s: string, c: char, i: nat)
    requires IndexOf(s, [c]) == Some(i)
    ensures i < |s| && s[i] == c
  {
    assert OccursAt([c], s, i);
    assert s[i..i + 1] == [c];
  }

  /** The pieces of a split at the first `c`, at index `i`: the text before it, then the pieces of
      the rest. */
  lemma SplitAtIndex(s: string, c: char, i: nat)
    requires IndexOf(s, [c]) == Some(i)
    ensures SplitOn(s, [c]) == [s[..i]] + SplitOn(s[i + 1..], [c])
  {
  }

  /** Joining a head and a non-empty tail puts the separator between them. */
  lemma JoinCons(head: string, tail: seq<string>, sep: string)
    requires |tail| >= 1
    ensures Join([head] + tail, sep) == head + sep + Join(tail, sep)
  {
    assert ([head] + tail)[1..] == tail;
  }

  // ---------------------------------------------------------------- replace

  /** `s.replace(c, t)` for a one-character `c`. */
  function ReplaceChar(s: string, c: char, t: string): string {
    if |s| == 0 then ""
    else (if s[0] == c then t else [s[0]]) + ReplaceChar(s[1..], c, t)
  }

  /** Replacing a character that does not occur changes nothing. */
  lemma {:induction false} ReplaceCharAbsent(s: string, c: char, t: string)
    requires c !in s
    ensures ReplaceChar(s, c, t) == s
    decreases |s|
  {
    if |s| > 0 {
      assert s == [s[0]] + s[1..];
      ReplaceCharAbsent(s[1..], c, t);
    }
  }

  /** Every character of `s.replace(c, t)` comes from `t` or from `s`. */
  lemma {:induction false} ReplaceCharFrom(s: string, c: char, t: string, x: char)
    requires x in ReplaceChar(s, c, t) && x !in t
    ensures x in s
    decreases |s|
  {
    var head := if s[0] == c then t else [s[0]];
    if x !in head {
      ReplaceCharFrom(s[1..], c, t, x);
    }
  }

  /** After `s.replace(c, t)`, `c` is gone unless `t` brings it back. */
  lemma {:induction false} ReplaceCharRemoves(s: string, c: char, t: string)
    requires c !in t
    ensures c !in ReplaceChar(s, c, t)
    decreases |s|
  {
    if |s| > 0 {
      ReplaceCharRemoves(s[1..], c, t);
    }
  }

  lemma ReplaceCharConcat(a: string, b: string, c: char, t: string)
    ensures ReplaceChar(a + b, c, t) == ReplaceChar(a, c, t) + ReplaceChar(b, c, t)
    decreases |a|
  {
    if |a| > 0 {
      assert (a + b)[1..] == a[1..] + b;
      ReplaceCharConcat(a[1..], b, c, t);
    } else {
      assert a + b == b;
    }
  }

  /** Replacing a character by one character keeps every position: `c` becomes `d`, the rest
      stays. */
  lemma {:induction false} ReplaceCharByChar(s: string, c: char, d: char)
    ensures |ReplaceChar(s, c, [d])| == |s|
    ensures forall k :: 0 <= k < |s| ==> ReplaceChar(s, c, [d])[k] == (if s[k] == c then d else s[k])
    decreases |s|
  {
    if |s| > 0 {
      ReplaceCharByChar(s[1..], c, d);
      var r := ReplaceChar(s, c, [d]);
      forall k | 0 <= k < |s|
        ensures r[k] == (if s[k] == c then d else s[k])
      {
        if k > 0 { assert r[k] == ReplaceChar(s[1..], c, [d])[k - 1]; }
      }
    }
  }

  /** Digit strings contain neither separator. */
  lemma DigitsHaveNoSeparator(s: string)
    requires AllDigits(s)
    ensures ',' !in s && '.' !in s
  {
  }

  lemma NotInParts(a: string, b: string, c: char)
    requires c !in a + b
    ensures c !in a && c !in b
  {
  }

  /** A leading occurrence is replaced and the rest is handled the same way. */
  lemma ReplaceCharHead(rest: string, c: char, t: string)
    ensures ReplaceChar([c] + rest, c, t) == t + ReplaceChar(rest, c, t)
  {
    assert ([c] + rest)[1..] == rest;
  }

  // ---------------------------------------------------------------- numbers as text

  function Pow10(n: nat): (r: nat)
    ensures r >= 1
  {
    if n == 0 then 1 else 10 * Pow10(n - 1)
  }

  function DigitChar(d: nat): (c: char)
    requires d < 10
    ensures IsDigit(c)
  {
    ('0' as int + d) as char
  }

  /** The value of a digit string read in base 10 (leading zeros allowed). */
  function DigitsValue(s: string): nat
    requires AllDigits(s)
  {
    if |s| == 0 then 0 else DigitsValue(s[..|s| - 1]) * 10 + (s[|s| - 1] as int - '0' as int)
  }

  /** `str(n)` for a non-negative integer: base-10 digits without leading zeros. */
  function NatToString(n: nat): (r: string)
    ensures |r| > 0 && AllDigits(r)
    ensures DigitsValue(r) == n
    ensures |r| > 1 ==> r[0] != '0'
  {
    if n < 10 then [DigitChar(n)]
    else
      var r := NatToString(n / 10) + [DigitChar(n % 10)];
      assert r[..|r| - 1] == NatToString(n / 10);
      r
  }

  /** `str(i)` for any integer: a minus sign before the digits of a negative number. */
  function IntToString(i: int): (r: string)
    ensures i >= 0 ==> r == NatToString(i)
    ensures i < 0 ==> r == "-" + NatToString(-i)
  {
    if i < 0 then "-" + NatToString(-i) else NatToString(i)
  }

  function Zeros(n: nat): (r: string)
    ensures |r| == n && AllDigits(r)
    ensures forall i :: 0 <= i < n ==> r[i] == '0'
  {
    seq(n, _ => '0')
  }

  /** `s.zfill(width)`: pad with '0' on the left, after a leading sign, up to `width`. */
  function ZFill(s: string, width: nat): (r: string)
    ensures |r| == if |s| >= width then |s| else width
  {
    if |s| >= width then s
    else if |s| > 0 && (s[0] == '+' || s[0] == '-') then [s[0]] + Zeros(width - |s|) + s[1..]
    else Zeros(width - |s|) + s
  }

  /** Leading zeros do not change the value of a digit string. */
  lemma {:induction false} LeadingZerosValue(k: nat, s: string)
    requires AllDigits(s)
    ensures AllDigits(Zeros(k) + s)
    ensures DigitsValue(Zeros(k) + s) == DigitsValue(s)
    decreases |s| + k
  {
    var z := Zeros(k) + s;
    if |s| == 0 {
      assert z == Zeros(k);
      if k > 0 {
        assert z[..|z| - 1] == Zeros(k - 1);
        LeadingZerosValue(k - 1, s);
        assert Zeros(k - 1) + s == Zeros(k - 1);
      }
    } else {
      assert z[..|z| - 1] == Zeros(k) + s[..|s| - 1];
      LeadingZerosValue(k, s[..|s| - 1]);
    }
  }

  /** `str(n).zfill(w)` is a digit string that reads back as `n`. */
  lemma ZFillNatValue(n: nat, width: nat)
    ensures AllDigits(ZFill(NatToString(n), width))
    ensures DigitsValue(ZFill(NatToString(n), width)) == n
  {
    var s := NatToString(n);
    if |s| < width {
      LeadingZerosValue(width - |s|, s);
    }
  }

  lemma AllDigitsConcat(a: string, b: string)
    requires AllDigits(a) && AllDigits(b)
    ensures AllDigits(a + b)
  {
    forall k | 0 <= k < |a + b|
      ensures IsDigit((a + b)[k])
    {
      if k < |a| { assert (a + b)[k] == a[k]; } else { assert (a + b)[k] == b[k - |a|]; }
    }
  }

  lemma ShiftDigit(x: int, p: int, y: int, d: int)
    ensures (x * p + y) * 10 + d == x * (p * 10) + (y * 10 + d)
  {
  }

  /** Reading two digit strings one after the other. */
  lemma {:induction false} DigitsValueConcat(a: string, b: string)
    requires AllDigits(a) && AllDigits(b)
    ensures AllDigits(a + b)
    ensures DigitsValue(a + b) == DigitsValue(a) * Pow10(|b|) + DigitsValue(b)
    decreases |b|
  {
    AllDigitsConcat(a, b);
    if |b| == 0 {
      assert a + b == a;
    } else {
      var b' := b[..|b| - 1];
      var d := b[|b| - 1] as int - '0' as int;
      var ab := a + b;
      assert ab[..|ab| - 1] == a + b';
      assert ab[|ab| - 1] == b[|b| - 1];
      assert AllDigits(b');
      DigitsValueConcat(a, b');
      var x := DigitsValue(a);
      var p := Pow10(|b'|);
      var y := DigitsValue(b');
      assert DigitsValue(ab) == DigitsValue(a + b') * 10 + d;
      assert DigitsValue(a + b') == x * p + y;
      assert DigitsValue(b) == y * 10 + d;
      assert Pow10(|b|) == p * 10;
      ShiftDigit(x, p, y, d);
    }
  }
}
