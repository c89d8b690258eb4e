/** Ordered keyword tables as the scripts use them: a Python dict literal iterated with
    `.items()`, scanned top to bottom for the first key that occurs in a text. A dict literal
    evaluates its entries left to right; a repeated key keeps the position of its first entry
    and takes the value of its last one. */
module OrderedTable {
  import opened Wrappers
  import opened Text

  /** The position of key `k` in an ordered table, if it is there. */
  function IndexOfKey<V>(d: seq<(string, V)>, k: string): (r: Option<nat>)
    ensures r.None? <==> forall j :: 0 <= j < |d| ==> d[j].0 != k
    ensures r.Some? ==> r.value < |d| && d[r.value].0 == k
    ensures r.Some? ==> forall j :: 0 <= j < r.value ==> d[j].0 != k
  {
    if |d| == 0 then None
    else if d[0].0 == k then Some(0)
    else
      match IndexOfKey(d[1..], k)
      case None => None
      case Some(i) => Some(i + 1)
  }

  /** `d[k] = v` on a dict: the value is replaced where the key already is, otherwise the
      entry goes at the end. */
  function Insert<V>(d: seq<(string, V)>, k: string, v: V): seq<(string, V)> {
    match IndexOfKey(d, k)
    case Some(p) => d[p := (k, v)]
    case None => d + [(k, v)]
  }

  /** The dict a literal `{k1: v1, k2: v2, ...}` evaluates to. */
  function FromLiteral<V>(lit: seq<(string, V)>): seq<(string, V)> {
    if |lit| == 0 then []
    else Insert(FromLiteral(lit[..|lit| - 1]), lit[|lit| - 1].0, lit[|lit| - 1].1)
  }

  predicate HasKey<V>(t: seq<(string, V)>, k: string) {
    exists i :: 0 <= i < |t| && t[i].0 == k
  }

  /** The value of the last entry of the literal that has key `k`. */
  function LastValue<V>(lit: seq<(string, V)>, k: string): V
    requires HasKey(lit, k)
  {
    if lit[|lit| - 1].0 == k then lit[|lit| - 1].1
    else
      var i :| 0 <= i < |lit| && lit[i].0 == k;
      assert lit[..|lit| - 1][i].0 == k;
      LastValue(lit[..|lit| - 1], k)
  }

  /** Keys that occur nowhere else: the keys of a dict literal without repetitions. */
  predicate DistinctKeys<V>(t: seq<(string, V)>) {
    forall i, j :: 0 <= i < j < |t| ==> t[i].0 != t[j].0
  }

  /** The first entry, in table order, whose key is a substring of `text`; the scan
      `for keyword, ... in table.items(): if keyword in text: return ...`. */
  function FirstKeyIn<V>(t: seq<(string, V)>, text: string): (r: Option<nat>)
    ensures r.Some? ==> r.value < |t| && Contains(text, t[r.value].0)
    ensures r.Some? ==> forall j :: 0 <= j < r.value ==> !Contains(text, t[j].0)
    ensures r.None? ==> forall j :: 0 <= j < |t| ==> !Contains(text, t[j].0)
  {
    FirstKeyFrom(t, text, 0)
  }

  function FirstKeyFrom<V>(t: seq<(string, V)>, text: string, k: nat): (r: Option<nat>)
    requires k <= |t|
    ensures r.Some? ==> k <= r.value < |t| && Contains(text, t[r.value].0)
    ensures r.Some? ==> forall j :: k <= j < r.value ==> !Contains(text, t[j].0)
    ensures r.None? ==> forall j :: k <= j < |t| ==> !Contains(text, t[j].0)
    decreases |t| - k
  {
    if k == |t| then None
    else if Contains(text, t[k].0) then Some(k)
    else FirstKeyFrom(t, text, k + 1)
  }

  /** The contract of `FirstKeyIn` pins its result down. */
  lemma FirstKeyUnique<V>(t: seq<(string, V)>, text: string, r: Option<nat>)
    requires r.Some? ==> r.value < |t| && Contains(text, t[r.value].0)
    requires r.Some? ==> forall j :: 0 <= j < r.value ==> !Contains(text, t[j].0)
    requires r.None? ==> forall j :: 0 <= j < |t| ==> !Contains(text, t[j].0)
    ensures FirstKeyIn(t, text) == r
  {
  }

  /** Appending an entry only matters when nothing before it matches. */
  lemma FirstKeyInSnoc<V>(t: seq<(string, V)>, e: (string, V), text: string)
    ensures FirstKeyIn(t + [e], text) ==
              if FirstKeyIn(t, text).Some? then FirstKeyIn(t, text)
              else if Contains(text, e.0) then Some(|t|)
              else None
  {
    var u := t + [e];
    assert forall j :: 0 <= j < |t| ==> u[j] == t[j];
    assert u[|t|] == e;
    var r := if FirstKeyIn(t, text).Some? then FirstKeyIn(t, text)
             else if Contains(text, e.0) then Some(|t|) else None;
    FirstKeyUnique(u, text, r);
  }

  /** Replacing a value in place, under the same key, does not move the first match. */
  lemma FirstKeyInUpdate<V>(t: seq<(string, V)>, p: nat, v: V, text: string)
    requires p < |t|
    ensures FirstKeyIn(t[p := (t[p].0, v)], text) == FirstKeyIn(t, text)
  {
    var u := t[p := (t[p].0, v)];
    assert forall j :: 0 <= j < |t| ==> u[j].0 == t[j].0;
    FirstKeyUnique(u, text, FirstKeyIn(t, text));
  }

  lemma LastValueSnoc<V>(lit: seq<(string, V)>, e: (string, V), k: string)
    requires HasKey(lit, k) || k == e.0
    ensures HasKey(lit + [e], k)
    ensures LastValue(lit + [e], k) == if k == e.0 then e.1 else LastValue(lit, k)
  {
    var u := lit + [e];
    assert u[|lit|] == e;
    assert u[..|u| - 1] == lit;
    if k != e.0 {
      var i :| 0 <= i < |lit| && lit[i].0 == k;
      assert u[i].0 == k;
    }
  }

  /** Scanning the dict a literal evaluates to finds a match exactly when scanning the literal
      does; the matching key is the literal's first matching key, and its value is the last
      value the literal gives that key. */
  lemma {:induction false} DictFirstMatch<V>(lit: seq<(string, V)>, text: string)
    ensures FirstKeyIn(FromLiteral(lit), text).Some? <==> FirstKeyIn(lit, text).Some?
    ensures FirstKeyIn(lit, text).Some? ==>
              var i := FirstKeyIn(lit, text).value;
              var j := FirstKeyIn(FromLiteral(lit), text).value;
              && HasKey(lit, lit[i].0)
              && j < |FromLiteral(lit)|
              && FromLiteral(lit)[j] == (lit[i].0, LastValue(lit, lit[i].0))
    decreases |lit|
  {
    if |lit| > 0 {
      var n := |lit|;
      var pre := lit[..n - 1];
      var e := lit[n - 1];
      assert lit == pre + [e];
      var d := FromLiteral(pre);
      DictFirstMatch(pre, text);
      FirstKeyInSnoc(pre, e, text);
      match IndexOfKey(d, e.0)
      case Some(p) =>
        assert FromLiteral(lit) == d[p := (d[p].0, e.1)];
        FirstKeyInUpdate(d, p, e.1, text);
        match FirstKeyIn(pre, text) {
          case Some(i) =>
            var j := FirstKeyIn(d, text).value;
            assert lit[i] == pre[i];
            LastValueSnoc(pre, e, pre[i].0);
            if j != p {
              assert d[j].0 != e.0 by {
                if p < j { assert !Contains(text, d[p].0); }
              }
            }
          case None =>
            assert !Contains(text, d[p].0);
        }
      case None =>
        var u := d + [e];
        assert FromLiteral(lit) == u;
        FirstKeyInSnoc(d, e, text);
        match FirstKeyIn(pre, text) {
          case Some(i) =>
            var j := FirstKeyIn(d, text).value;
            assert lit[i] == pre[i] && u[j] == d[j];
            LastValueSnoc(pre, e, pre[i].0);
          case None =>
            if Contains(text, e.0) {
              assert lit[n - 1] == e && u[|d|] == e;
              LastValueSnoc(pre, e, e.0);
            }
        }
    }
  }

  /** A literal without repeated keys evaluates to itself. */
  lemma {:induction false} FromLiteralDistinct<V>(lit: seq<(string, V)>)
    requires DistinctKeys(lit)
    ensures FromLiteral(lit) == lit
    decreases |lit|
  {
    if |lit| > 0 {
      var n := |lit|;
      var pre := lit[..n - 1];
      assert DistinctKeys(pre) by {
        forall i, j | 0 <= i < j < |pre| ensures pre[i].0 != pre[j].0 {
          assert pre[i] == lit[i] && pre[j] == lit[j];
        }
      }
      FromLiteralDistinct(pre);
      assert forall j :: 0 <= j < |pre| ==> pre[j].0 != lit[n - 1].0 by {
        forall j | 0 <= j < |pre| ensures pre[j].0 != lit[n - 1].0 {
          assert pre[j] == lit[j];
        }
      }
      assert pre + [lit[n - 1]] == lit;
    }
  }

  /** The last value of a key is the value of one of its entries. */
  lemma {:induction false} LastValueEntry<V>(lit: seq<(string, V)>, k: string) returns (j: nat)
    requires HasKey(lit, k)
    ensures j < |lit| && lit[j] == (k, LastValue(lit, k))
    decreases |lit|
  {
    if lit[|lit| - 1].0 == k {
      j := |lit| - 1;
    } else {
      var pre := lit[..|lit| - 1];
      var i :| 0 <= i < |lit| && lit[i].0 == k;
      assert pre[i].0 == k;
      j := LastValueEntry(pre, k);
      assert lit[j] == pre[j];
    }
  }

  /** In a literal written in two parts, a key takes its last value from the second part when
      that part has it, and from the first part otherwise. */
  lemma {:induction false} LastValueAppend<V>(a: seq<(string, V)>, b: seq<(string, V)>, k: string)
    requires HasKey(a, k) || HasKey(b, k)
    ensures HasKey(a + b, k)
    ensures LastValue(a + b, k) == if HasKey(b, k) then LastValue(b, k) else LastValue(a, k)
    decreases |b|
  {
    if |b| == 0 {
      assert a + b == a;
    } else {
      var pre := b[..|b| - 1];
      var e := b[|b| - 1];
      var ab := a + b;
      assert ab[|ab| - 1] == e;
      assert ab[..|ab| - 1] == a + pre;
      if e.0 == k {
        assert ab[|ab| - 1].0 == k;
      } else {
        assert HasKey(b, k) <==> HasKey(pre, k) by {
          if HasKey(b, k) {
            var i :| 0 <= i < |b| && b[i].0 == k;
            assert pre[i] == b[i];
          }
          if HasKey(pre, k) {
            var i :| 0 <= i < |pre| && pre[i].0 == k;
            assert b[i] == pre[i];
          }
        }
        LastValueAppend(a, pre, k);
        var i :| 0 <= i < |a + pre| && (a + pre)[i].0 == k;
        assert ab[i] == (a + pre)[i];
      }
    }
  }

  /** A key whose last entry is at `i` takes the value written there. */
  lemma {:induction false} LastValueAt<V>(lit: seq<(string, V)>, i: nat, k: string)
    requires i < |lit| && lit[i].0 == k
    requires forall j :: i < j < |lit| ==> lit[j].0 != k
    ensures HasKey(lit, k) && LastValue(lit, k) == lit[i].1
    decreases |lit|
  {
    if i < |lit| - 1 {
      var pre := lit[..|lit| - 1];
      assert pre[i] == lit[i];
      assert forall j :: i < j < |pre| ==> pre[j] == lit[j];
      LastValueAt(pre, i, k);
    }
  }

  /** A literal written in two parts has a key when either part has it. */
  lemma HasKeyConcat<V>(a: seq<(string, V)>, b: seq<(string, V)>, k: string)
    ensures HasKey(a + b, k) <==> HasKey(a, k) || HasKey(b, k)
  {
    if HasKey(a + b, k) {
      var i :| 0 <= i < |a + b| && (a + b)[i].0 == k;
      if i >= |a| { assert b[i - |a|] == (a + b)[i]; }
    }
    if HasKey(a, k) {
      var i :| 0 <= i < |a| && a[i].0 == k;
      assert (a + b)[i] == a[i];
    }
    if HasKey(b, k) {
      var i :| 0 <= i < |b| && b[i].0 == k;
      assert (a + b)[|a| + i] == b[i];
    }
  }

  /** `any(p in text for p in patterns)`. */
  predicate AnyIn(patterns: seq<string>, text: string) {
    exists k :: 0 <= k < |patterns| && Contains(text, patterns[k])
  }

  lemma AnyInOne(a: string, n: string)
    ensures AnyIn([a], n) <==> Contains(n, a)
  {
    if Contains(n, a) { assert Contains(n, [a][0]); }
  }

  lemma AnyInTwo(a: string, b: string, n: string)
    ensures AnyIn([a, b], n) <==> Contains(n, a) || Contains(n, b)
  {
    if Contains(n, a) { assert Contains(n, [a, b][0]); }
    if Contains(n, b) { assert Contains(n, [a, b][1]); }
  }

  lemma AnyInThree(a: string, b: string, c: string, n: string)
    ensures AnyIn([a, b, c], n) <==> Contains(n, a) || Contains(n, b) || Contains(n, c)
  {
    if Contains(n, a) { assert Contains(n, [a, b, c][0]); }
    if Contains(n, b) { assert Contains(n, [a, b, c][1]); }
    if Contains(n, c) { assert Contains(n, [a, b, c][2]); }
  }

  /** The first row at or after `k`, in table order, with a pattern occurring in `text`: the scan
      `for name, patterns in table.items(): if any(p in text for p in patterns): ...`. */
  function FirstPatternRow<V>(t: seq<(V, seq<string>)>, text: string, k: nat): (r: Option<nat>)
    requires k <= |t|
    ensures r.Some? ==> k <= r.value < |t| && AnyIn(t[r.value].1, text)
    ensures r.Some? ==> forall j :: k <= j < r.value ==> !AnyIn(t[j].1, text)
    ensures r.None? ==> forall j :: k <= j < |t| ==> !AnyIn(t[j].1, text)
    decreases |t| - k
  {
    if k == |t| then None
    else if AnyIn(t[k].1, text) then Some(k)
    else FirstPatternRow(t, text, k + 1)
  }
}
