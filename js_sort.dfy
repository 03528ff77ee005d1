/**
  `Array.prototype.sort(cmp)`. The language requires the sort to be stable
  (ECMA-262, section 23.1.3.30) and its result is fixed whenever the
  comparator is consistent; it is modelled as a stable insertion sort, with
  the three properties that together pin a stable sort down proved about it:
  the result is ordered, is a permutation of the input, and keeps elements
  the comparator calls equal in their input order.
 */
module JsSort {
  import opened JsArray

  /**
    A consistent comparator (ECMA-262's "consistent comparator"): swapping the
    arguments flips the sign, and "not after" is transitive.
   */
  ghost predicate Consistent<T(!new)>(cmp: (T, T) -> int) {
    (forall a, b :: cmp(a, b) < 0 <==> cmp(b, a) > 0)
    && (forall a, b, c :: cmp(a, b) <= 0 && cmp(b, c) <= 0 ==> cmp(a, c) <= 0)
  }

  /** Every element is at or before every later one. */
  ghost predicate Sorted<T>(s: seq<T>, cmp: (T, T) -> int) {
    forall i, j :: 0 <= i < j < |s| ==> cmp(s[i], s[j]) <= 0
  }

  /** `x` goes before the first element it compares strictly before, so after its equals. */
  function Insert<T>(x: T, s: seq<T>, cmp: (T, T) -> int): seq<T> {
    if s == [] then [x]
    else if cmp(x, s[0]) < 0 then [x] + s
    else [s[0]] + Insert(x, s[1..], cmp)
  }

  /** The result of `s.sort(cmp)` (and of `[...s].sort(cmp)`). */
  function SortedBy<T>(s: seq<T>, cmp: (T, T) -> int): seq<T> {
    if s == [] then [] else Insert(s[|s| - 1], SortedBy(s[..|s| - 1], cmp), cmp)
  }

  /** The elements the comparator calls equal to `x`, in order. */
  function Ties<T(!new)>(s: seq<T>, x: T, cmp: (T, T) -> int): seq<T> {
    Filter(s, TieWith(x, cmp))
  }

  /** Whether an element compares equal to `x`. */
  function TieWith<T>(x: T, cmp: (T, T) -> int): T -> bool {
    e => cmp(x, e) == 0
  }

  /** A consistent comparator is reflexive ("not after" itself). */
  lemma Reflexive<T(!new)>(cmp: (T, T) -> int, a: T)
    requires Consistent(cmp)
    ensures cmp(a, a) == 0
  {
    assert cmp(a, a) < 0 <==> cmp(a, a) > 0;
  }

  /** "Strictly before" followed by "not after" is "strictly before". */
  lemma StrictThenWeak<T(!new)>(cmp: (T, T) -> int, a: T, b: T, c: T)
    requires Consistent(cmp)
    requires cmp(a, b) < 0 && cmp(b, c) <= 0
    ensures cmp(a, c) < 0
  {
  }

  lemma {:induction false} InsertMultiset<T>(x: T, s: seq<T>, cmp: (T, T) -> int)
    ensures multiset(Insert(x, s, cmp)) == multiset(s) + multiset{x}
  {
    if s != [] && cmp(x, s[0]) >= 0 {
      InsertMultiset(x, s[1..], cmp);
      assert s == [s[0]] + s[1..];
    }
  }

  lemma {:induction false} InsertSorted<T(!new)>(x: T, s: seq<T>, cmp: (T, T) -> int)
    requires Consistent(cmp) && Sorted(s, cmp)
    ensures Sorted(Insert(x, s, cmp), cmp)
  {
    if s == [] {
    } else if cmp(x, s[0]) < 0 {
      var r := [x] + s;
      forall i, j | 0 <= i < j < |r| ensures cmp(r[i], r[j]) <= 0 {
        if i == 0 && j > 1 {
          assert cmp(s[0], s[j - 1]) <= 0;
          StrictThenWeak(cmp, x, s[0], s[j - 1]);
        }
      }
    } else {
      InsertSorted(x, s[1..], cmp);
      var t := Insert(x, s[1..], cmp);
      InsertMultiset(x, s[1..], cmp);
      var r := [s[0]] + t;
      assert cmp(s[0], x) <= 0 by {
        assert !(cmp(s[0], x) > 0);
      }
      forall i, j | 0 <= i < j < |r| ensures cmp(r[i], r[j]) <= 0 {
        if i == 0 {
          assert r[j] in multiset(s[1..]) + multiset{x};
          if r[j] != x {
            var k :| 0 <= k < |s[1..]| && s[1..][k] == r[j];
            assert s[k + 1] == r[j];
          }
        }
      }
    }
  }

  /** The result is ordered by the comparator. */
  lemma {:induction false} SortedBySorted<T(!new)>(s: seq<T>, cmp: (T, T) -> int)
    requires Consistent(cmp)
    ensures Sorted(SortedBy(s, cmp), cmp)
  {
    if s != [] {
      SortedBySorted(s[..|s| - 1], cmp);
      InsertSorted(s[|s| - 1], SortedBy(s[..|s| - 1], cmp), cmp);
    }
  }

  /** The result holds the same elements, as many times each. */
  lemma {:induction false} SortedByPermutation<T>(s: seq<T>, cmp: (T, T) -> int)
    ensures multiset(SortedBy(s, cmp)) == multiset(s)
  {
    if s != [] {
      var init, last := s[..|s| - 1], s[|s| - 1];
      var sortedInit := SortedBy(init, cmp);
      assert multiset(sortedInit) == multiset(init) by {
        SortedByPermutation(init, cmp);
      }
      assert multiset(Insert(last, sortedInit, cmp)) == multiset(sortedInit) + multiset{last} by {
        InsertMultiset(last, sortedInit, cmp);
      }
      assert SortedBy(s, cmp) == Insert(last, sortedInit, cmp);
      assert s == init + [last];
    }
  }

  /** When `x` ties with `y` and `y` sorts strictly before all of `t`, nothing in `t` ties with `x`. */
  lemma NoTiesAfter<T(!new)>(y: T, t: seq<T>, x: T, cmp: (T, T) -> int)
    requires Consistent(cmp) && Sorted(t, cmp) && t != []
    requires cmp(y, t[0]) < 0 && cmp(x, y) == 0
    ensures Ties(t, x, cmp) == []
  {
    var p := TieWith(x, cmp);
    forall e | e in t ensures !p(e) {
      var k :| 0 <= k < |t| && t[k] == e;
      if k > 0 {
        assert cmp(t[0], e) <= 0;
      } else {
        Reflexive(cmp, e);
      }
      StrictThenWeak(cmp, y, t[0], e);
    }
    FilterNone(t, p);
  }

  /** `InsertTies` when `y` goes in front of `t`. */
  lemma InsertTiesFront<T(!new)>(y: T, t: seq<T>, x: T, cmp: (T, T) -> int)
    requires Consistent(cmp) && Sorted(t, cmp) && t != [] && cmp(y, t[0]) < 0
    ensures Ties([y] + t, x, cmp) == Ties(t, x, cmp) + Ties([y], x, cmp)
  {
    var p := TieWith(x, cmp);
    FilterAppend([y], t, p);
    if cmp(x, y) == 0 {
      NoTiesAfter(y, t, x, cmp);
    } else {
      assert Filter([y], p) == [];
    }
  }

  /** Inserting `y` into an ordered list puts it after every element equal to it. */
  lemma {:induction false} InsertTies<T(!new)>(y: T, t: seq<T>, x: T, cmp: (T, T) -> int)
    requires Consistent(cmp) && Sorted(t, cmp)
    ensures Ties(Insert(y, t, cmp), x, cmp) == Ties(t, x, cmp) + Ties([y], x, cmp)
  {
    var p := TieWith(x, cmp);
    if t == [] {
      assert Insert(y, t, cmp) == [y];
    } else if cmp(y, t[0]) < 0 {
      InsertTiesFront(y, t, x, cmp);
    } else {
      var a, rest := t[0], t[1..];
      SortedTail(t, cmp);
      InsertTies(y, rest, x, cmp);
      assert Insert(y, t, cmp) == [a] + Insert(y, rest, cmp);
      assert t == [a] + rest;
      FilterConsBoth(a, rest, Insert(y, rest, cmp), Filter([y], p), p);
    }
  }

  /** Putting the same element in front of two lists whose filters differ by a suffix keeps that suffix. */
  lemma FilterConsBoth<T(!new)>(a: T, s: seq<T>, s': seq<T>, extra: seq<T>, p: T -> bool)
    requires Filter(s', p) == Filter(s, p) + extra
    ensures Filter([a] + s', p) == Filter([a] + s, p) + extra
  {
    assert ([a] + s')[0] == a && ([a] + s')[1..] == s';
    assert ([a] + s)[0] == a && ([a] + s)[1..] == s;
    if p(a) {
      assert Filter([a] + s', p) == [a] + (Filter(s, p) + extra);
      assert Filter([a] + s, p) == [a] + Filter(s, p);
      ConcatAssoc([a], Filter(s, p), extra);
    }
  }

  lemma ConcatAssoc<T>(a: seq<T>, b: seq<T>, c: seq<T>)
    ensures a + (b + c) == (a + b) + c
  {
  }

  lemma SortedTail<T>(t: seq<T>, cmp: (T, T) -> int)
    requires Sorted(t, cmp) && t != []
    ensures Sorted(t[1..], cmp)
  {
    var rest := t[1..];
    forall i, j | 0 <= i < j < |rest| ensures cmp(rest[i], rest[j]) <= 0 {
      assert rest[i] == t[i + 1] && rest[j] == t[j + 1];
    }
  }

  lemma {:induction false} FilterNone<T(!new)>(s: seq<T>, p: T -> bool)
    requires forall e :: e in s ==> !p(e)
    ensures Filter(s, p) == []
  {
    if s != [] {
      FilterNone(s[1..], p);
    }
  }

  /** The sort is stable: elements the comparator calls equal keep their input order. */
  lemma {:induction false} SortedByStable<T(!new)>(s: seq<T>, x: T, cmp: (T, T) -> int)
    requires Consistent(cmp)
    ensures Ties(SortedBy(s, cmp), x, cmp) == Ties(s, x, cmp)
  {
    if s != [] {
      var init, last := s[..|s| - 1], s[|s| - 1];
      SortedByStable(init, x, cmp);
      SortedBySorted(init, cmp);
      InsertTies(last, SortedBy(init, cmp), x, cmp);
      assert s == init + [last];
      FilterAppend(init, [last], TieWith(x, cmp));
    }
  }

  /** A list that is already ordered comes back unchanged. */
  lemma {:induction false} SortedByOfSorted<T(!new)>(s: seq<T>, cmp: (T, T) -> int)
    requires Consistent(cmp) && Sorted(s, cmp)
    ensures SortedBy(s, cmp) == s
  {
    if s != [] {
      var init, last := s[..|s| - 1], s[|s| - 1];
      SortedByOfSorted(init, cmp);
      InsertAtEnd(last, init, cmp);
      assert s == init + [last];
    }
  }

  /** An element not before any element of `s` is inserted at the end. */
  lemma {:induction false} InsertAtEnd<T(!new)>(x: T, s: seq<T>, cmp: (T, T) -> int)
    requires forall i :: 0 <= i < |s| ==> cmp(x, s[i]) >= 0
    ensures Insert(x, s, cmp) == s + [x]
  {
    if s != [] {
      InsertAtEnd(x, s[1..], cmp);
      assert s == [s[0]] + s[1..];
    }
  }

  /**
    `Insert` puts `x` at position `k` when `k` is the first position whose
    element `x` compares strictly before.
   */
  lemma {:induction false} InsertAt<T>(x: T, t: seq<T>, k: nat, cmp: (T, T) -> int)
    requires k <= |t|
    requires forall m :: 0 <= m < k ==> cmp(x, t[m]) >= 0
    requires k < |t| ==> cmp(x, t[k]) < 0
    ensures Insert(x, t, cmp) == t[..k] + [x] + t[k..]
  {
    if k == 0 {
      assert t[k..] == t;
    } else {
      InsertAt(x, t[1..], k - 1, cmp);
      assert t[..k] == [t[0]] + t[1..][..k - 1];
      assert t[k..] == t[1..][k - 1..];
    }
  }

  /** The first position in `a[..i]` whose element `x` compares strictly before, or `i`. */
  method FindSlot<T>(a: array<T>, i: nat, x: T, cmp: (T, T) -> int) returns (k: nat)
    requires i <= a.Length
    ensures k <= i
    ensures forall m :: 0 <= m < k ==> cmp(x, a[m]) >= 0
    ensures k < i ==> cmp(x, a[k]) < 0
  {
    k := 0;
    while k < i && cmp(x, a[k]) >= 0
      invariant k <= i
      invariant forall m :: 0 <= m < k ==> cmp(x, a[m]) >= 0
    {
      k := k + 1;
    }
  }

  /** Moves `a[k..i]` one place to the right, over `a[i]`. */
  method ShiftRight<T>(a: array<T>, k: nat, i: nat)
    requires k <= i < a.Length
    modifies a
    ensures a[..k] == old(a[..k])
    ensures a[k + 1..i + 1] == old(a[k..i])
    ensures a[i + 1..] == old(a[i + 1..])
  {
    var j := i;
    while j > k
      invariant k <= j <= i
      invariant a[..j] == old(a[..j])
      invariant a[j + 1..i + 1] == old(a[j..i])
      invariant a[i + 1..] == old(a[i + 1..])
    {
      a[j] := a[j - 1];
      j := j - 1;
    }
  }

  /** Inserts `a[i]` into the prefix `a[..i]`, as `Insert` does. */
  method InsertNext<T>(a: array<T>, i: nat, cmp: (T, T) -> int)
    requires i < a.Length
    modifies a
    ensures a[..i + 1] == Insert(old(a[i]), old(a[..i]), cmp)
    ensures a[i + 1..] == old(a[i + 1..])
  {
    var x := a[i];
    var k := FindSlot(a, i, x, cmp);
    ghost var before := a[..];
    ShiftRight(a, k, i);
    ghost var shifted := a[..];
    a[k] := x;
    ghost var t := before[..i];
    assert a[..k] == shifted[..k] == before[..k] == t[..k];
    assert a[k + 1..i + 1] == shifted[k + 1..i + 1] == before[k..i] == t[k..];
    assert a[i + 1..] == shifted[i + 1..] == before[i + 1..];
    assert a[..i + 1] == a[..k] + [a[k]] + a[k + 1..i + 1];
    InsertAt(x, t, k, cmp);
  }

  /**
    `a.sort(cmp)` on an array: sorts in place, leaving the array holding
    `SortedBy` of its old contents. The insertion sort stands for the
    engine's algorithm; only its result is specified.
   */
  method SortInPlace<T>(a: array<T>, cmp: (T, T) -> int)
    modifies a
    ensures a[..] == SortedBy(old(a[..]), cmp)
  {
    ghost var input := a[..];
    var i := 0;
    while i < a.Length
      invariant 0 <= i <= a.Length
      invariant a[..i] == SortedBy(input[..i], cmp)
      invariant a[i..] == input[i..]
    {
      InsertNext(a, i, cmp);
      assert input[..i + 1][..i] == input[..i];
      i := i + 1;
    }
    assert a[..] == a[..a.Length] && input == input[..a.Length];
  }

  /** Whether `a` comes at or before `b` in lexicographic order of their characters. */
  predicate LexLe(a: string, b: string) {
    a == [] || (b != [] && (a[0] < b[0] || (a[0] == b[0] && LexLe(a[1..], b[1..]))))
  }

  /**
    The comparison `sort()` uses without a comparator, on characters: the
    program compares UTF-16 code units, which agrees with this order for
    strings of characters below U+10000.
   */
  function DefaultCompare(a: string, b: string): int {
    if a == b then 0 else if LexLe(a, b) then -1 else 1
  }

  lemma {:induction false} LexLeReflexive(a: string)
    ensures LexLe(a, a)
  {
    if a != [] {
      LexLeReflexive(a[1..]);
    }
  }

  lemma {:induction false} LexLeAntisymmetric(a: string, b: string)
    requires LexLe(a, b) && LexLe(b, a)
    ensures a == b
  {
    if a != [] && b != [] {
      LexLeAntisymmetric(a[1..], b[1..]);
      assert a == [a[0]] + a[1..] && b == [b[0]] + b[1..];
    }
  }

  lemma {:induction false} LexLeTotal(a: string, b: string)
    ensures LexLe(a, b) || LexLe(b, a)
  {
    if a != [] && b != [] && a[0] == b[0] {
      LexLeTotal(a[1..], b[1..]);
    }
  }

  lemma {:induction false} LexLeTransitive(a: string, b: string, c: string)
    requires LexLe(a, b) && LexLe(b, c)
    ensures LexLe(a, c)
  {
    if a != [] && b != [] && c != [] && a[0] == b[0] && b[0] == c[0] {
      LexLeTransitive(a[1..], b[1..], c[1..]);
    }
  }

  /** Character order is a consistent comparator, so `sort()` of strings is determined. */
  lemma DefaultCompareConsistent()
    ensures Consistent(DefaultCompare)
  {
    forall a: string, b: string
      ensures DefaultCompare(a, b) < 0 <==> DefaultCompare(b, a) > 0
    {
      LexLeTotal(a, b);
      if LexLe(a, b) && LexLe(b, a) {
        LexLeAntisymmetric(a, b);
      }
    }
    forall a: string, b: string, c: string | DefaultCompare(a, b) <= 0 && DefaultCompare(b, c) <= 0
      ensures DefaultCompare(a, c) <= 0
    {
      LexLeReflexive(a);
      LexLeReflexive(b);
      LexLeTransitive(a, b, c);
    }
  }
}
