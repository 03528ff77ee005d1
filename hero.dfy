/**
  The hero section's title, set on two lines: the words of the title split
  on single spaces, the first half (rounded up) on the first line and the
  rest on the second.
 */
module Hero {
  import opened JsString
  import opened JsMath

  /** `title.split(' ')`: every single space separates two pieces, so doubled spaces give empty pieces. */
  function Words(title: string): seq<string> {
    SplitOn(title, ' ')
  }

  /** `Math.ceil(title.split(' ').length / 2)`: how many pieces go on the first line. */
  function FirstLineCount(title: string): (k: nat)
    ensures 2 * k == |Words(title)| || 2 * k == |Words(title)| + 1
  {
    var k := CeilDiv(|Words(title)|, 2);
    assert k >= 1;
    k
  }

  /** The two lines of the title. */
  function TitleLines(title: string): (string, string) {
    var words := Words(title);
    var k := FirstLineCount(title);
    (Join(words[..k], " "), Join(words[k..], " "))
  }

  /**
    The first line holds the first `ceil(n / 2)` pieces and the second the
    rest, as splitting each line on spaces again shows; the first line has
    as many pieces as the second or one more.
   */
  lemma LinesSplitBack(title: string)
    ensures var k := FirstLineCount(title);
      && SplitOn(TitleLines(title).0, ' ') == Words(title)[..k]
      && (k < |Words(title)| ==> SplitOn(TitleLines(title).1, ' ') == Words(title)[k..])
      && 0 <= k - |Words(title)[k..]| <= 1
  {
    var words := Words(title);
    var k := FirstLineCount(title);
    SplitOnJoin(words[..k], ' ');
    if k < |words| {
      SplitOnJoin(words[k..], ' ');
    }
  }

  /** With at least two pieces, the two lines joined by a space give back the title exactly. */
  lemma LinesRejoin(title: string)
    requires ' ' in title
    ensures TitleLines(title).0 + " " + TitleLines(title).1 == title
  {
    var words := Words(title);
    var k := FirstLineCount(title);
    assert Count(title, ' ') > 0 by {
      CountPositive(title, ' ');
    }
    assert words == words[..k] + words[k..];
    JoinAppend(words[..k], words[k..], " ");
    JoinSplitOn(title, ' ');
  }

  lemma {:induction false} CountPositive(s: string, c: char)
    requires c in s
    ensures Count(s, c) > 0
  {
    if s[0] != c {
      CountPositive(s[1..], c);
    }
  }

  /** A title without a space is the first line, and the second line is empty. */
  lemma OneWordTitle(title: string)
    requires ' ' !in title
    ensures TitleLines(title) == (title, "")
  {
    var words := Words(title);
    JoinSplitOn(title, ' ');
    assert |words| == 1 by {
      CountZero(title, ' ');
    }
    assert words[..1] == words;
  }

  lemma {:induction false} CountZero(s: string, c: char)
    requires c !in s
    ensures Count(s, c) == 0
  {
    if s != [] {
      CountZero(s[1..], c);
    }
  }

  /** A title made of space-free words is set as its first `ceil(n / 2)` words over the rest. */
  lemma LinesOfWords(words: seq<string>)
    requires |words| >= 1
    requires forall i :: 0 <= i < |words| ==> ' ' !in words[i]
    ensures var k := (|words| + 1) / 2;
      TitleLines(Join(words, " ")) == (Join(words[..k], " "), Join(words[k..], " "))
  {
    var title := Join(words, " ");
    assert " " == [' '];
    SplitOnJoin(words, ' ');
    assert Words(title) == words;
    var k := FirstLineCount(title);
    assert k == (|words| + 1) / 2;
  }
}
