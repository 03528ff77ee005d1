/** The JavaScript array built-ins the site's logic relies on: `filter`, `flatMap` and `Array.from(new Set(xs))`. */
module JsArray {

  /** `xs.filter(p)`: the elements satisfying `p`, in their original order. */
  function Filter<T(!new)>(xs: seq<T>, p: T -> bool): (r: seq<T>)
    ensures |r| <= |xs|
    ensures forall i :: 0 <= i < |r| ==> p(r[i])
    ensures forall x :: x in r <==> x in xs && p(x)
  {
    if xs == [] then []
    else if p(xs[0]) then [xs[0]] + Filter(xs[1..], p)
    else Filter(xs[1..], p)
  }

  /** Filtering keeps every copy of a kept element and no copy of a dropped one. */
  lemma {:induction false} FilterMultiset<T(!new)>(xs: seq<T>, p: T -> bool)
    ensures forall x :: multiset(Filter(xs, p))[x] == if p(x) then multiset(xs)[x] else 0
  {
    if xs != [] {
      FilterMultiset(xs[1..], p);
      assert xs == [xs[0]] + xs[1..];
    }
  }

  /** Filtering distributes over concatenation, so it keeps the original order. */
  lemma {:induction false} FilterAppend<T(!new)>(a: seq<T>, b: seq<T>, p: T -> bool)
    ensures Filter(a + b, p) == Filter(a, p) + Filter(b, p)
  {
    if a == [] {
      assert a + b == b;
    } else {
      var ab := a + b;
      assert ab[0] == a[0] && ab[1..] == a[1..] + b;
      FilterAppend(a[1..], b, p);
    }
  }

  /** A filter that every element passes returns the array unchanged. */
  lemma {:induction false} FilterAll<T(!new)>(xs: seq<T>, p: T -> bool)
    requires forall i :: 0 <= i < |xs| ==> p(xs[i])
    ensures Filter(xs, p) == xs
  {
    if xs != [] {
      FilterAll(xs[1..], p);
    }
  }

  /** The number of elements satisfying `p` (`xs.filter(p).length`). */
  function CountIf<T(!new)>(xs: seq<T>, p: T -> bool): nat {
    |Filter(xs, p)|
  }

  /** Counting the elements that satisfy `p` and those that do not accounts for them all. */
  lemma {:induction false} CountSplit<T(!new)>(xs: seq<T>, p: T -> bool)
    ensures CountIf(xs, p) + CountIf(xs, x => !p(x)) == |xs|
  {
    if xs != [] {
      CountSplit(xs[1..], p);
    }
  }

  predicate NoDup<T(==,!new)>(xs: seq<T>) {
    forall i, j :: 0 <= i < j < |xs| ==> xs[i] != xs[j]
  }

  /** An array has no duplicates iff no element occurs in it more than once. */
  lemma {:induction false} NoDupMultiset<T(!new)>(xs: seq<T>)
    ensures NoDup(xs) <==> forall x :: multiset(xs)[x] <= 1
  {
    if xs != [] {
      var rest := xs[1..];
      NoDupMultiset(rest);
      assert xs == [xs[0]] + rest;
      if NoDup(xs) {
        forall i, j | 0 <= i < j < |rest| ensures rest[i] != rest[j] {
          assert rest[i] == xs[i + 1] && rest[j] == xs[j + 1];
        }
      }
      if forall x :: multiset(xs)[x] <= 1 {
        assert multiset(xs)[xs[0]] == 1 + multiset(rest)[xs[0]];
        forall x ensures multiset(rest)[x] <= 1 {
          assert multiset(xs)[x] >= multiset(rest)[x];
        }
        forall i, j | 0 <= i < j < |xs| ensures xs[i] != xs[j] {
          if i == 0 {
            assert xs[j] == rest[j - 1];
          } else {
            assert xs[i] == rest[i - 1] && xs[j] == rest[j - 1];
          }
        }
      }
    }
  }

  /** Reordering an array without duplicates leaves it without duplicates. */
  lemma NoDupPermutation<T(!new)>(xs: seq<T>, ys: seq<T>)
    requires NoDup(xs) && multiset(xs) == multiset(ys)
    ensures NoDup(ys)
  {
    NoDupMultiset(xs);
    NoDupMultiset(ys);
  }

  /** `Array.from(new Set(xs))`: each distinct element once, in order of first appearance. */
  function Distinct<T(==,!new)>(xs: seq<T>): (r: seq<T>)
    ensures NoDup(r)
    ensures forall x :: x in r <==> x in xs
    ensures |r| <= |xs|
  {
    if xs == [] then []
    else
      var d := Distinct(xs[..|xs| - 1]);
      var last := xs[|xs| - 1];
      assert xs == xs[..|xs| - 1] + [last];
      if last in d then d else d + [last]
  }

  /** The first position of `x` in `xs`. */
  function FirstIndex<T(==,!new)>(xs: seq<T>, x: T): (k: nat)
    requires x in xs
    ensures k < |xs| && xs[k] == x && x !in xs[..k]
  {
    if xs[0] == x then 0 else 1 + FirstIndex(xs[1..], x)
  }

  /** The elements of `Distinct(xs)` come in the order of their first appearance in `xs`. */
  lemma {:induction false} DistinctOrder<T(!new)>(xs: seq<T>, i: nat, j: nat)
    requires i < j < |Distinct(xs)|
    ensures FirstIndex(xs, Distinct(xs)[i]) < FirstIndex(xs, Distinct(xs)[j])
  {
    var init := xs[..|xs| - 1];
    var last := xs[|xs| - 1];
    var d := Distinct(init);
    assert xs == init + [last];
    FirstIndexPrefix(init, last, Distinct(xs)[i]);
    if j < |d| {
      DistinctOrder(init, i, j);
      FirstIndexPrefix(init, last, Distinct(xs)[j]);
    } else {
      assert Distinct(xs)[j] == last && last !in init;
      FirstIndexPrefix(init, last, last);
    }
  }

  /** Appending an element does not move the first position of an element already present. */
  lemma FirstIndexPrefix<T(!new)>(init: seq<T>, last: T, x: T)
    requires x in init + [last]
    ensures x in init ==> FirstIndex(init + [last], x) == FirstIndex(init, x)
    ensures x !in init ==> FirstIndex(init + [last], x) == |init|
  {
    var xs := init + [last];
    var k := FirstIndex(xs, x);
    if x in init {
      var k' := FirstIndex(init, x);
      assert xs[..k'] == init[..k'];
      assert init[..k] == xs[..k];
    } else {
      assert xs[..|init|] == init;
    }
  }

  /** Deduplicating an array without duplicates returns it unchanged. */
  lemma {:induction false} DistinctOfNoDup<T(!new)>(xs: seq<T>)
    requires NoDup(xs)
    ensures Distinct(xs) == xs
  {
    if xs != [] {
      var init := xs[..|xs| - 1];
      DistinctOfNoDup(init);
      assert xs[|xs| - 1] !in init;
    }
  }

  /** Deduplicating twice is the same as deduplicating once. */
  lemma DistinctIdempotent<T(!new)>(xs: seq<T>)
    ensures Distinct(Distinct(xs)) == Distinct(xs)
  {
    DistinctOfNoDup(Distinct(xs));
  }

  /** `xs.some(p)`. */
  function Any<T>(xs: seq<T>, p: T -> bool): (r: bool)
    ensures r <==> exists i :: 0 <= i < |xs| && p(xs[i])
  {
    if xs == [] then false
    else
      assert forall i :: 1 <= i < |xs| ==> xs[i] == xs[1..][i - 1];
      p(xs[0]) || Any(xs[1..], p)
  }

  /** `xss.flat()` (and `flatMap` after a `map`): the arrays concatenated in order. */
  function Flatten<T(!new)>(xss: seq<seq<T>>): (r: seq<T>)
    ensures forall x :: x in r <==> exists i :: 0 <= i < |xss| && x in xss[i]
  {
    if xss == [] then []
    else
      assert forall i :: 1 <= i < |xss| ==> xss[i] == xss[1..][i - 1];
      xss[0] + Flatten(xss[1..])
  }
}
