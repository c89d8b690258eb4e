/** The list comprehension `[x for x in xs if keep(x)]` every scraper uses to drop records
    that carry nothing, and the loop that appends a result only when one was found: their
    definitions, their membership facts and their distribution over concatenation. */
module Filtering {
  import opened Wrappers

  /** The elements of `xs` that satisfy `keep`, in order. */
  function Filter<T>(xs: seq<T>, keep: T -> bool): seq<T>
    decreases |xs|
  {
    if |xs| == 0 then []
    else
      var last := xs[|xs| - 1];
      Filter(xs[..|xs| - 1], keep) + (if keep(last) then [last] else [])
  }

  /** Every element kept satisfies `keep` and comes from `xs`; every element of `xs` that
      satisfies `keep` is kept. */
  lemma {:induction false} FilterMembers<T>(xs: seq<T>, keep: T -> bool)
    ensures |Filter(xs, keep)| <= |xs|
    ensures forall k :: 0 <= k < |Filter(xs, keep)| ==> keep(Filter(xs, keep)[k]) && Filter(xs, keep)[k] in xs
    ensures forall i :: 0 <= i < |xs| && keep(xs[i]) ==> xs[i] in Filter(xs, keep)
    decreases |xs|
  {
    if |xs| > 0 {
      var init, last := xs[..|xs| - 1], xs[|xs| - 1];
      FilterMembers(init, keep);
      assert forall i :: 0 <= i < |init| ==> init[i] == xs[i];
      assert forall i :: 0 <= i < |xs| ==> i < |init| || xs[i] == last;
    }
  }

  /** Filtering distributes over concatenation, so the kept elements keep their relative
      order. */
  lemma {:induction false} FilterConcat<T>(a: seq<T>, b: seq<T>, keep: T -> bool)
    ensures Filter(a + b, keep) == Filter(a, keep) + Filter(b, keep)
    decreases |b|
  {
    if |b| == 0 {
      assert a + b == a;
    } else {
      var b' := b[..|b| - 1];
      assert (a + b)[..|a + b| - 1] == a + b';
      FilterConcat(a, b', keep);
    }
  }

  /** An element that `keep` accepts sits in the result at the count of accepted elements
      before it. */
  lemma FilterPosition<T>(xs: seq<T>, keep: T -> bool, i: nat)
    requires i < |xs| && keep(xs[i])
    ensures |Filter(xs[..i], keep)| < |Filter(xs, keep)|
    ensures Filter(xs, keep)[|Filter(xs[..i], keep)|] == xs[i]
  {
    var pre, x, post := xs[..i], xs[i], xs[i + 1..];
    assert xs == pre + ([x] + post);
    FilterConcat(pre, [x] + post, keep);
    FilterConcat([x], post, keep);
    assert Filter([x], keep) == [x] by {
      assert [x][..0] == [];
    }
  }

  /** An element that `keep` rejects leaves the result as if it were absent. */
  lemma FilterSkips<T>(a: seq<T>, x: T, b: seq<T>, keep: T -> bool)
    requires !keep(x)
    ensures Filter(a + [x] + b, keep) == Filter(a + b, keep)
  {
    FilterConcat(a + [x], b, keep);
    FilterConcat(a, [x], keep);
    FilterConcat(a, b, keep);
    assert Filter([x], keep) == [] by {
      assert [x][..0] == [];
    }
  }

  /** `[f(x) for x in xs]`. */
  function Map<A, B>(xs: seq<A>, f: A -> B): (r: seq<B>)
    ensures |r| == |xs|
    ensures forall i :: 0 <= i < |xs| ==> r[i] == f(xs[i])
  {
    seq(|xs|, i requires 0 <= i < |xs| => f(xs[i]))
  }

  /** Mapping distributes over concatenation. */
  lemma MapConcat<A, B>(a: seq<A>, b: seq<A>, f: A -> B)
    ensures Map(a + b, f) == Map(a, f) + Map(b, f)
  {
    assert forall i :: 0 <= i < |a + b| ==> Map(a + b, f)[i] == (Map(a, f) + Map(b, f))[i];
  }

  /** The values of the entries of `xs` that hold one, in order. */
  function Somes<T>(xs: seq<Option<T>>): seq<T>
    decreases |xs|
  {
    if |xs| == 0 then []
    else
      var last := xs[|xs| - 1];
      Somes(xs[..|xs| - 1]) + (if last.Some? then [last.value] else [])
  }

  /** Every value returned is held by some entry, and every entry's value is returned. */
  lemma {:induction false} SomesMembers<T>(xs: seq<Option<T>>)
    ensures |Somes(xs)| <= |xs|
    ensures forall k :: 0 <= k < |Somes(xs)| ==> exists i :: 0 <= i < |xs| && xs[i] == Some(Somes(xs)[k])
    ensures forall i :: 0 <= i < |xs| && xs[i].Some? ==> xs[i].value in Somes(xs)
    decreases |xs|
  {
    if |xs| > 0 {
      var init, last := xs[..|xs| - 1], xs[|xs| - 1];
      SomesMembers(init);
      assert forall i :: 0 <= i < |init| ==> init[i] == xs[i];
      assert forall i :: 0 <= i < |xs| ==> i < |init| || xs[i] == last;
      var r := Somes(xs);
      forall k | 0 <= k < |r|
        ensures exists i :: 0 <= i < |xs| && xs[i] == Some(r[k])
      {
        if k < |Somes(init)| {
          var i :| 0 <= i < |init| && init[i] == Some(Somes(init)[k]);
          assert xs[i] == Some(r[k]);
        } else {
          assert xs[|xs| - 1] == Some(r[k]);
        }
      }
    }
  }

  /** Collecting distributes over concatenation, so values come out in the order of their
      entries. */
  lemma {:induction false} SomesConcat<T>(a: seq<Option<T>>, b: seq<Option<T>>)
    ensures Somes(a + b) == Somes(a) + Somes(b)
    decreases |b|
  {
    if |b| == 0 {
      assert a + b == a;
    } else {
      var b' := b[..|b| - 1];
      assert (a + b)[..|a + b| - 1] == a + b';
      SomesConcat(a, b');
    }
  }
}
