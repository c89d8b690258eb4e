/** The duplicate filter at the end of the scrapers' runs: walk the records in discovery order,
    keep a record when its key has not been seen, and remember the key. */
module Dedup {
  /** The keys of `items`. */
  function Keys<T, K>(items: seq<T>, key: T -> K): set<K> {
    set i | 0 <= i < |items| :: key(items[i])
  }

  lemma KeysSnoc<T, K>(items: seq<T>, x: T, key: T -> K)
    ensures Keys(items + [x], key) == Keys(items, key) + {key(x)}
  {
    var s := items + [x];
    forall k | k in Keys(s, key) ensures k in Keys(items, key) + {key(x)} {
      var i :| 0 <= i < |s| && key(s[i]) == k;
      if i < |items| { assert s[i] == items[i]; }
    }
    forall k | k in Keys(items, key) ensures k in Keys(s, key) {
      var i :| 0 <= i < |items| && key(items[i]) == k;
      assert s[i] == items[i];
    }
    assert s[|items|] == x;
  }

  /** Item `i` is the first of `items` with its key. */
  predicate IsFirst<T, K(==)>(items: seq<T>, key: T -> K, i: nat)
    requires i < |items|
  {
    forall j :: 0 <= j < i ==> key(items[j]) != key(items[i])
  }

  /** The records the filter keeps: each one whose key no earlier record has. */
  function KeepFirst<T, K(==)>(items: seq<T>, key: T -> K): seq<T>
    decreases |items|
  {
    if |items| == 0 then []
    else
      var pre := items[..|items| - 1];
      var x := items[|items| - 1];
      KeepFirst(pre, key) + (if key(x) in Keys(pre, key) then [] else [x])
  }

  /** The kept records have exactly the keys of all records, each key once. */
  lemma {:induction false} KeepFirstKeys<T, K>(items: seq<T>, key: T -> K)
    ensures Keys(KeepFirst(items, key), key) == Keys(items, key)
    ensures forall i, j :: 0 <= i < j < |KeepFirst(items, key)| ==>
              key(KeepFirst(items, key)[i]) != key(KeepFirst(items, key)[j])
    decreases |items|
  {
    if |items| > 0 {
      var pre := items[..|items| - 1];
      var x := items[|items| - 1];
      KeepFirstKeys(pre, key);
      KeysSnoc(pre, x, key);
      assert items == pre + [x];
      var kp := KeepFirst(pre, key);
      if key(x) !in Keys(pre, key) {
        KeysSnoc(kp, x, key);
        var r := kp + [x];
        forall i, j | 0 <= i < j < |r| ensures key(r[i]) != key(r[j]) {
          if j == |kp| {
            assert key(r[i]) in Keys(kp, key) by { assert r[i] == kp[i]; }
          } else {
            assert r[i] == kp[i] && r[j] == kp[j];
          }
        }
      } else {
        assert kp + [] == kp;
      }
    }
  }

  /** Before the last record, being first with one's key does not depend on the last record. */
  lemma FirstInPrefix<T, K>(items: seq<T>, key: T -> K, i: nat)
    requires i < |items| - 1
    ensures IsFirst(items, key, i) <==> IsFirst(items[..|items| - 1], key, i)
  {
    var pre := items[..|items| - 1];
    assert forall j :: 0 <= j <= i ==> pre[j] == items[j];
  }

  /** The last record is first with its key exactly when no earlier record has that key. */
  lemma LastIsFirst<T, K>(items: seq<T>, key: T -> K)
    requires |items| > 0
    ensures IsFirst(items, key, |items| - 1) <==> key(items[|items| - 1]) !in Keys(items[..|items| - 1], key)
  {
    var n := |items| - 1;
    var pre := items[..n];
    if key(items[n]) in Keys(pre, key) {
      var j :| 0 <= j < n && key(pre[j]) == key(items[n]);
      assert key(items[j]) == key(items[n]);
    } else {
      forall j | 0 <= j < n ensures key(items[j]) != key(items[n]) {
        assert pre[j] == items[j];
        assert key(pre[j]) in Keys(pre, key);
      }
    }
  }

  /** The kept records are, in discovery order, exactly the first record of each key: the
      indices `idx` they come from increase, each is a first occurrence, and every first
      occurrence is among them. */
  lemma {:induction false} KeptAreFirsts<T, K>(items: seq<T>, key: T -> K) returns (idx: seq<nat>)
    ensures |idx| == |KeepFirst(items, key)|
    ensures forall k :: 0 <= k < |idx| ==> idx[k] < |items| && KeepFirst(items, key)[k] == items[idx[k]]
    ensures forall k :: 0 <= k < |idx| ==> IsFirst(items, key, idx[k])
    ensures forall k, l :: 0 <= k < l < |idx| ==> idx[k] < idx[l]
    ensures forall i :: 0 <= i < |items| && IsFirst(items, key, i) ==> i in idx
    decreases |items|
  {
    if |items| == 0 {
      idx := [];
    } else {
      var n := |items| - 1;
      var pre := items[..n];
      var x := items[n];
      var p := KeptAreFirsts(pre, key);
      assert forall i :: 0 <= i < n ==> pre[i] == items[i];
      forall k | 0 <= k < |p| ensures IsFirst(items, key, p[k]) {
        FirstInPrefix(items, key, p[k]);
      }
      LastIsFirst(items, key);
      if key(x) in Keys(pre, key) {
        idx := p;
        assert KeepFirst(items, key) == KeepFirst(pre, key) + [];
      } else {
        idx := p + [n];
        assert KeepFirst(items, key) == KeepFirst(pre, key) + [x];
      }
      forall i | 0 <= i < |items| && IsFirst(items, key, i) ensures i in idx {
        if i < n {
          FirstInPrefix(items, key, i);
        }
      }
    }
  }


  /** The loop of `scrape_all_products`: a `seen` set of keys and a list of kept records. */
  method Deduplicate<T, K(==)>(items: seq<T>, key: T -> K) returns (unique: seq<T>)
    ensures unique == KeepFirst(items, key)
    ensures forall i, j :: 0 <= i < j < |unique| ==> key(unique[i]) != key(unique[j])
    ensures Keys(unique, key) == Keys(items, key)
  {
    unique := [];
    var seen: set<K> := {};
    for n := 0 to |items|
      invariant unique == KeepFirst(items[..n], key)
      invariant seen == Keys(items[..n], key)
    {
      var x := items[n];
      assert items[..n + 1] == items[..n] + [x];
      assert items[..n + 1][..n] == items[..n];
      KeysSnoc(items[..n], x, key);
      if key(x) !in seen {
        seen := seen + {key(x)};
        unique := unique + [x];
      }
    }
    assert items[..|items|] == items;
    KeepFirstKeys(items, key);
  }
}
