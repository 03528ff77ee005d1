/**
  The JavaScript string built-ins the site's logic relies on: the `\s` class,
  `toLowerCase`, `includes`, `indexOf`, `replace` with a string pattern,
  `split(' ')`, `split(/\s+/)`, `join`, `String(n)` and `parseInt(s, 10)`.
  Strings are sequences of characters.
 */
module JsString {
  import opened Wrappers

  /** The characters matched by `\s`: ECMAScript's WhiteSpace and LineTerminator. */
  predicate IsSpace(c: char) {
    c == ' ' || c == '\t' || c == '\n' || c == '\r' || c == '\U{000B}' || c == '\U{000C}'
    || c == '\U{00A0}' || c == '\U{1680}' || ('\U{2000}' <= c <= '\U{200A}')
    || c == '\U{2028}' || c == '\U{2029}' || c == '\U{202F}' || c == '\U{205F}'
    || c == '\U{3000}' || c == '\U{FEFF}'
  }

  /** The line terminators: the characters `.` in a regular expression does not match. */
  predicate IsLineTerminator(c: char) {
    c == '\n' || c == '\r' || c == '\U{2028}' || c == '\U{2029}'
  }

  /** `\d`. */
  predicate IsDigit(c: char) {
    '0' <= c <= '9'
  }

  function LowerChar(c: char): char {
    if 'A' <= c <= 'Z' then (c as int + 32) as char else c
  }

  /** `s.toLowerCase()`, on the ASCII letters. */
  function Lower(s: string): (r: string)
    ensures |r| == |s|
    ensures forall i :: 0 <= i < |s| ==> r[i] == LowerChar(s[i])
  {
    if s == [] then [] else [LowerChar(s[0])] + Lower(s[1..])
  }

  /** Lower-casing twice changes nothing more than lower-casing once. */
  lemma LowerIdempotent(s: string)
    ensures Lower(Lower(s)) == Lower(s)
  {
    assert forall i :: 0 <= i < |s| ==> LowerChar(LowerChar(s[i])) == LowerChar(s[i]);
  }

  /** Lower-casing works character by character, so it distributes over concatenation. */
  lemma LowerAppend(a: string, b: string)
    ensures Lower(a + b) == Lower(a) + Lower(b)
  {
  }

  predicate StartsWith(s: string, prefix: string) {
    |prefix| <= |s| && s[..|prefix|] == prefix
  }

  /** `sub` occurs in `s` starting at position `i`. */
  predicate OccursAt(s: string, sub: string, i: nat) {
    i + |sub| <= |s| && s[i..i + |sub|] == sub
  }

  /** `i` is the leftmost position at which `sub` occurs in `s`. */
  predicate FirstOccurrence(s: string, sub: string, i: nat) {
    OccursAt(s, sub, i) && forall j: nat :: j < i ==> !OccursAt(s, sub, j)
  }

  /** `s.includes(sub)`. */
  predicate Includes(s: string, sub: string)
    decreases |s|
  {
    StartsWith(s, sub) || (|s| > 0 && Includes(s[1..], sub))
  }

  /** `includes` holds exactly when `sub` occurs in `s` at some position. */
  lemma {:induction false} IncludesAt(s: string, sub: string)
    ensures Includes(s, sub) <==> exists i: nat :: OccursAt(s, sub, i)
    decreases |s|
  {
    if StartsWith(s, sub) {
      assert OccursAt(s, sub, 0);
    } else if |s| > 0 {
      IncludesAt(s[1..], sub);
      if exists i: nat :: OccursAt(s[1..], sub, i) {
        var i: nat :| OccursAt(s[1..], sub, i);
        assert s[i + 1..i + 1 + |sub|] == s[1..][i..i + |sub|];
        assert OccursAt(s, sub, i + 1);
      }
      if exists i: nat :: OccursAt(s, sub, i) {
        var i: nat :| OccursAt(s, sub, i);
        assert i != 0;
        assert s[1..][i - 1..i - 1 + |sub|] == s[i..i + |sub|];
        assert OccursAt(s[1..], sub, i - 1);
      }
    }
  }

  /** Every string includes the empty string: an empty search query matches everything. */
  lemma IncludesEmpty(s: string)
    ensures Includes(s, "")
  {
  }

  /** `s.indexOf(pat)`: the first position at which `pat` occurs, if any. */
  function IndexOf(s: string, pat: string): (r: Option<nat>)
    ensures r.None? <==> !Includes(s, pat)
    ensures r.Some? ==> r.value + |pat| <= |s| && s[r.value..r.value + |pat|] == pat
    ensures r.Some? ==> forall i: nat :: i < r.value ==> !OccursAt(s, pat, i)
    decreases |s|
  {
    if StartsWith(s, pat) then Some(0)
    else if |s| == 0 then None
    else
      match IndexOf(s[1..], pat)
      case None => None
      case Some(k) =>
        OccursAtShift(s, pat, k + 1);
        NoEarlierOccurrence(s, pat, k);
        Some(k + 1)
  }

  /** An occurrence at `i >= 1` is an occurrence at `i - 1` in the tail. */
  lemma OccursAtShift(s: string, pat: string, i: nat)
    requires 1 <= i <= |s|
    ensures OccursAt(s, pat, i) <==> OccursAt(s[1..], pat, i - 1)
  {
    if i + |pat| <= |s| {
      var a, b := s[i..i + |pat|], s[1..][i - 1..i - 1 + |pat|];
      assert |a| == |b|;
      forall k | 0 <= k < |a| ensures a[k] == b[k] {
        assert a[k] == s[i + k];
        assert b[k] == s[1..][i - 1 + k];
      }
      assert a == b;
    }
  }

  /** No occurrence before `k` in the tail and none at the head means none before `k + 1`. */
  lemma NoEarlierOccurrence(s: string, pat: string, k: nat)
    requires |s| > 0 && !StartsWith(s, pat)
    requires forall i: nat :: i < k ==> !OccursAt(s[1..], pat, i)
    ensures forall i: nat :: i < k + 1 ==> !OccursAt(s, pat, i)
  {
    forall i: nat | i < k + 1 ensures !OccursAt(s, pat, i) {
      if i == 0 {
        if |pat| <= |s| {
          assert s[..|pat|] == s[0..|pat|];
        }
      } else if i <= |s| {
        OccursAtShift(s, pat, i);
      }
    }
  }

  /** `indexOf` finds the first occurrence, wherever it is: an occurrence with none before it is the one returned. */
  lemma IndexOfIsFirstOccurrence(s: string, pat: string)
    ensures forall i: nat :: FirstOccurrence(s, pat, i) ==> IndexOf(s, pat) == Some(i)
  {
    forall i: nat | FirstOccurrence(s, pat, i)
      ensures IndexOf(s, pat) == Some(i)
    {
      IncludesAt(s, pat);
      var k := IndexOf(s, pat).value;
      assert OccursAt(s, pat, k);
    }
  }

  /**
    `s.replace(pat, rep)` with a string pattern: only the first occurrence of
    `pat` is replaced, and `s` is returned unchanged when `pat` does not occur.
   */
  function ReplaceFirst(s: string, pat: string, rep: string): (r: string)
    ensures !Includes(s, pat) ==> r == s
    ensures StartsWith(s, pat) ==> r == rep + s[|pat|..]
    ensures forall i: nat :: FirstOccurrence(s, pat, i) ==> r == s[..i] + rep + s[i + |pat|..]
    ensures Includes(s, pat) ==> |r| == |s| - |pat| + |rep|
  {
    IndexOfIsFirstOccurrence(s, pat);
    match IndexOf(s, pat)
    case None => s
    case Some(i) => s[..i] + rep + s[i + |pat|..]
  }

  /** `pieces.join(sep)`. */
  function Join(pieces: seq<string>, sep: string): string {
    if |pieces| == 0 then ""
    else if |pieces| == 1 then pieces[0]
    else pieces[0] + sep + Join(pieces[1..], sep)
  }

  /** Joining two non-empty lists puts one separator between their joins. */
  lemma {:induction false} JoinAppend(a: seq<string>, b: seq<string>, sep: string)
    requires |a| > 0 && |b| > 0
    ensures Join(a + b, sep) == Join(a, sep) + sep + Join(b, sep)
    decreases |a|
  {
    if |a| == 1 {
      assert (a + b)[1..] == b;
    } else {
      JoinAppend(a[1..], b, sep);
      assert (a + b)[1..] == a[1..] + b;
    }
  }

  /** The number of occurrences of `c` in `s`. */
  function Count(s: string, c: char): nat {
    if s == [] then 0 else (if s[0] == c then 1 else 0) + Count(s[1..], c)
  }

  /** `s.split(c)` for a one-character separator: one more piece than there are separators. */
  function SplitOn(s: string, c: char): (r: seq<string>)
    ensures |r| == Count(s, c) + 1
    ensures forall i :: 0 <= i < |r| ==> c !in r[i]
    decreases |s|
  {
    if s == [] then [""]
    else
      var rest := SplitOn(s[1..], c);
      if s[0] == c then [""] + rest else [[s[0]] + rest[0]] + rest[1..]
  }

  /** Splitting on `c` and joining with `c` gives back the string. */
  lemma {:induction false} JoinSplitOn(s: string, c: char)
    ensures Join(SplitOn(s, c), [c]) == s
    decreases |s|
  {
    if s != [] {
      var rest := SplitOn(s[1..], c);
      JoinSplitOn(s[1..], c);
      if s[0] == c {
        assert Join([""] + rest, [c]) == "" + [c] + Join(rest, [c]);
      } else {
        var r := [[s[0]] + rest[0]] + rest[1..];
        if |rest| == 1 {
          assert Join(r, [c]) == [s[0]] + rest[0];
        } else {
          assert r[1..] == rest[1..];
          assert Join(rest, [c]) == rest[0] + [c] + Join(rest[1..], [c]);
        }
      }
    }
  }

  /** A piece without `c`, followed by more text, stays at the head of the first piece. */
  lemma {:induction false} SplitOnPrefix(w: string, t: string, c: char)
    requires c !in w
    ensures SplitOn(w + t, c) == [w + SplitOn(t, c)[0]] + SplitOn(t, c)[1..]
    decreases |w|
  {
    if w != [] {
      var st := SplitOn(t, c);
      SplitOnPrefix(w[1..], t, c);
      assert (w + t)[1..] == w[1..] + t;
      var rest := SplitOn(w[1..] + t, c);
      assert rest[0] == w[1..] + st[0] && rest[1..] == st[1..];
      assert (w + t)[0] == w[0] && w[0] != c;
      assert [w[0]] + (w[1..] + st[0]) == w + st[0];
      assert SplitOn(w + t, c) == [[w[0]] + rest[0]] + rest[1..];
    } else {
      assert w + t == t;
      assert SplitOn(t, c)[0] == w + SplitOn(t, c)[0];
    }
  }

  /** Joining pieces free of `c` with `c` and splitting on `c` gives back the pieces. */
  lemma {:induction false} SplitOnJoin(pieces: seq<string>, c: char)
    requires |pieces| >= 1
    requires forall i :: 0 <= i < |pieces| ==> c !in pieces[i]
    ensures SplitOn(Join(pieces, [c]), c) == pieces
    decreases |pieces|
  {
    if |pieces| == 1 {
      SplitOnPrefix(pieces[0], "", c);
      assert pieces[0] + "" == pieces[0];
    } else {
      var tail := Join(pieces[1..], [c]);
      SplitOnJoin(pieces[1..], c);
      assert SplitOn([c] + tail, c) == [""] + pieces[1..] by {
        assert ([c] + tail)[1..] == tail;
      }
      SplitOnPrefix(pieces[0], [c] + tail, c);
      assert Join(pieces, [c]) == pieces[0] + ([c] + tail);
      assert pieces[0] + "" == pieces[0];
      assert pieces == [pieces[0]] + pieces[1..];
    }
  }

  /** `s.split(/\s+/)`: the pieces between maximal runs of whitespace. */
  function SplitWs(s: string): (r: seq<string>)
    ensures |r| >= 1
    decreases |s|
  {
    if s == [] then [""]
    else
      var rest := SplitWs(s[1..]);
      if !IsSpace(s[0]) then [[s[0]] + rest[0]] + rest[1..]
      else if |s| > 1 && IsSpace(s[1]) then rest
      else [""] + rest
  }

  /** `s` with every maximal run of whitespace replaced by a single space. */
  function Collapse(s: string): string
    decreases |s|
  {
    if s == [] then ""
    else if !IsSpace(s[0]) then [s[0]] + Collapse(s[1..])
    else if |s| > 1 && IsSpace(s[1]) then Collapse(s[1..])
    else " " + Collapse(s[1..])
  }

  /**
    Splitting on whitespace runs is splitting the collapsed text on single
    spaces; so there is one piece more than there are whitespace runs.
   */
  lemma {:induction false} SplitWsIsSplitOfCollapse(s: string)
    ensures SplitWs(s) == SplitOn(Collapse(s), ' ')
    decreases |s|
  {
    if s != [] {
      SplitWsIsSplitOfCollapse(s[1..]);
      var c := Collapse(s[1..]);
      if !IsSpace(s[0]) {
        assert ([s[0]] + c)[1..] == c;
      } else if !(|s| > 1 && IsSpace(s[1])) {
        assert (" " + c)[1..] == c;
      }
    }
  }

  /** Joining the whitespace-split pieces with single spaces gives the collapsed text. */
  lemma JoinSplitWs(s: string)
    ensures Join(SplitWs(s), " ") == Collapse(s)
  {
    SplitWsIsSplitOfCollapse(s);
    JoinSplitOn(Collapse(s), ' ');
  }

  /** No piece of a whitespace split contains whitespace that was collapsed to a space. */
  lemma SplitWsPiecesHaveNoSpace(s: string)
    ensures forall i :: 0 <= i < |SplitWs(s)| ==> ' ' !in SplitWs(s)[i]
  {
    SplitWsIsSplitOfCollapse(s);
  }

  function DigitChar(d: nat): (c: char)
    requires d < 10
    ensures IsDigit(c)
  {
    ('0' as int + d) as char
  }

  function DigitValue(c: char): nat
    requires IsDigit(c)
  {
    c as int - '0' as int
  }

  /** `String(n)`: the decimal rendering of a natural number. */
  function Decimal(n: nat): (r: string)
    ensures |r| >= 1
    ensures forall i :: 0 <= i < |r| ==> IsDigit(r[i])
    decreases n
  {
    if n < 10 then [DigitChar(n)] else Decimal(n / 10) + [DigitChar(n % 10)]
  }

  predicate AllDigits(s: string) {
    forall i :: 0 <= i < |s| ==> IsDigit(s[i])
  }

  /** The number a string of decimal digits denotes. */
  function DigitsValue(s: string): nat
    requires AllDigits(s)
  {
    if s == [] then 0 else DigitsValue(s[..|s| - 1]) * 10 + DigitValue(s[|s| - 1])
  }

  /** The length of the longest prefix of `s` made of decimal digits. */
  function DigitRun(s: string): (k: nat)
    ensures k <= |s| && AllDigits(s[..k])
    ensures k < |s| ==> !IsDigit(s[k])
  {
    if s == [] || !IsDigit(s[0]) then 0
    else
      var k := 1 + DigitRun(s[1..]);
      assert s[..k] == [s[0]] + s[1..][..k - 1];
      k
  }

  /** `s` without its leading whitespace (`StrWhiteSpaceChar` is the same set as `\s`). */
  function TrimStart(s: string): (r: string)
    ensures r == [] || !IsSpace(r[0])
    ensures |r| <= |s| && r == s[|s| - |r|..]
  {
    if s != [] && IsSpace(s[0]) then TrimStart(s[1..]) else s
  }

  /** A JavaScript number produced by `parseInt`: an integer or `NaN`. */
  datatype Num = Int(i: int) | NaN

  /**
    `parseInt(s, 10)`: skip leading whitespace, read an optional sign, then
    the longest run of decimal digits; `NaN` when there is no digit.
   */
  function ParseInt(s: string): Num {
    var t := TrimStart(s);
    var negative := |t| > 0 && t[0] == '-';
    var u := if |t| > 0 && (t[0] == '-' || t[0] == '+') then t[1..] else t;
    var k := DigitRun(u);
    if k == 0 then NaN
    else if negative then Int(0 - DigitsValue(u[..k]) as int)
    else Int(DigitsValue(u[..k]))
  }

  /** The digits of `Decimal(n)` denote `n`. */
  lemma {:induction false} DecimalValue(n: nat)
    ensures DigitsValue(Decimal(n)) == n
    decreases n
  {
    var r := Decimal(n);
    if n >= 10 {
      DecimalValue(n / 10);
      assert r[..|r| - 1] == Decimal(n / 10);
    }
  }

  /** The digit run of a rendered number followed by a non-digit is the whole rendering. */
  lemma {:induction false} DigitRunOfDigits(d: string, rest: string)
    requires AllDigits(d)
    requires rest == [] || !IsDigit(rest[0])
    ensures DigitRun(d + rest) == |d|
    decreases |d|
  {
    if d != [] {
      DigitRunOfDigits(d[1..], rest);
      assert (d + rest)[1..] == d[1..] + rest;
    }
  }

  /** Text starting with a digit parses to the value of its leading digit run. */
  lemma ParseIntUnsigned(u: string)
    requires u != [] && IsDigit(u[0])
    ensures DigitRun(u) > 0 && ParseInt(u) == Int(DigitsValue(u[..DigitRun(u)]))
  {
    assert !IsSpace(u[0]);
    assert TrimStart(u) == u;
  }

  /** A minus sign followed by a digit parses to the negated value of the digit run. */
  lemma ParseIntMinus(u: string)
    requires u != [] && IsDigit(u[0])
    ensures DigitRun(u) > 0 && ParseInt("-" + u) == Int(0 - DigitsValue(u[..DigitRun(u)]) as int)
  {
    var s := ['-'] + u;
    assert s == "-" + u;
    assert s[1..] == u;
    assert TrimStart(s) == s by {
      assert !IsSpace('-');
    }
    assert DigitRun(u) > 0;
  }

  /** `parseInt` reads back what `String` rendered, ignoring a trailing non-digit suffix. */
  lemma ParseIntDecimal(n: nat, rest: string)
    requires rest == [] || !IsDigit(rest[0])
    ensures ParseInt(Decimal(n) + rest) == Int(n)
  {
    var d := Decimal(n);
    var s := d + rest;
    assert s[0] == d[0];
    ParseIntUnsigned(s);
    DigitRunOfDigits(d, rest);
    assert s[..|d|] == d;
    DecimalValue(n);
  }

  /** `parseInt` reads a leading minus sign. */
  lemma ParseIntNegative(n: nat)
    ensures ParseInt("-" + Decimal(n)) == Int(0 - n as int)
  {
    var d := Decimal(n);
    ParseIntMinus(d);
    DigitRunOfDigits(d, "");
    assert d + "" == d;
    assert d[..|d|] == d;
    DecimalValue(n);
  }

  /** Text with no digit after its whitespace and sign parses to `NaN`. */
  lemma ParseIntNoDigits(s: string)
    requires forall i :: 0 <= i < |s| ==> !IsDigit(s[i])
    ensures ParseInt(s) == NaN
  {
    var t := TrimStart(s);
    var u := if |t| > 0 && (t[0] == '-' || t[0] == '+') then t[1..] else t;
    if u != [] {
      assert u[0] == t[|t| - |u|] == s[|s| - |u|];
      assert !IsDigit(u[0]);
    }
    assert DigitRun(u) == 0;
  }
}
