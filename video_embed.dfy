/**
  The case study's video player: the embed and thumbnail URLs derived from
  a video URL. The video id is what the first match of the platform's
  pattern captures; the patterns are specified here by the shapes of the
  text they accept and by the leftmost-match rule, and the search that
  finds the match is proved to agree with that specification.
 */
module VideoEmbed {
  import opened Wrappers
  import opened JsString
  import opened ContentSchema

  /** The `platform` prop; YouTube when not given. */
  function PlatformOrDefault(platform: Option<Platform>): Platform {
    platform.GetOr(YouTube)
  }

  /* ---------- searching positions ---------- */

  /** The smallest `k` in `[lo, hi)` with `P(k)`. */
  function FirstWhere(lo: nat, hi: nat, P: nat -> bool): (r: Option<nat>)
    decreases hi - lo
    ensures r.None? <==> forall k :: lo <= k < hi ==> !P(k)
    ensures r.Some? ==> lo <= r.value < hi && P(r.value) && forall k :: lo <= k < r.value ==> !P(k)
  {
    if lo >= hi then None else if P(lo) then Some(lo) else FirstWhere(lo + 1, hi, P)
  }

  /** The largest `k` in `[lo, hi)` with `P(k)`: where a greedy repetition stops after backtracking. */
  function LastWhere(lo: nat, hi: nat, P: nat -> bool): (r: Option<nat>)
    decreases hi - lo
    ensures r.None? <==> forall k :: lo <= k < hi ==> !P(k)
    ensures r.Some? ==> lo <= r.value < hi && P(r.value) && forall k :: r.value < k < hi ==> !P(k)
  {
    if lo >= hi then None else if P(hi - 1) then Some(hi - 1) else LastWhere(lo, hi - 1, P)
  }

  /* ---------- the YouTube pattern ---------- */

  /** `[^"&?\/\s]`: a character a YouTube id may hold. */
  predicate IdChar(c: char) {
    c != '"' && c != '&' && c != '?' && c != '/' && !IsSpace(c)
  }

  /** An id (`[^"&?\/\s]{11}`) starts at `i`. */
  predicate IdAt(url: string, i: nat) {
    i + 11 <= |url| && forall k :: i <= k < i + 11 ==> IdChar(url[k])
  }

  /** `url[i..j]` holds no line terminator, so `.` matches all of it. */
  predicate DotsMatch(url: string, i: nat, j: nat) {
    forall k :: i <= k < j && k < |url| ==> !IsLineTerminator(url[k])
  }

  function IsSlashIn(url: string): nat -> bool {
    (k: nat) => k < |url| && url[k] == '/'
  }

  /** The first `/` at or after `p`. */
  function FirstSlash(url: string, p: nat): Option<nat> {
    FirstWhere(p, |url|, IsSlashIn(url))
  }

  /**
    `[^\/]+\/.+\/` from `p` ends just before `i`: the first `/` after `p` is
    not at `p`, and `i - 1` is a later `/` with at least one character, and
    no line terminator, in between.
   */
  predicate PathShape(url: string, p: nat, i: nat) {
    var q := FirstSlash(url, p);
    q.Some? && q.value > p && q.value + 2 <= i - 1 && i - 1 < |url| && url[i - 1] == '/'
    && DotsMatch(url, q.value + 1, i - 1)
  }

  /** `(?:v|e(?:mbed)?)\/` from `p` ends just before `i`. */
  predicate PrefixShape(url: string, p: nat, i: nat) {
    (i == p + 2 && (OccursAt(url, "v/", p) || OccursAt(url, "e/", p)))
    || (i == p + 6 && OccursAt(url, "embed/", p))
  }

  /** `.*[?&]v=` from `p` ends just before `i`. */
  predicate QueryShape(url: string, p: nat, i: nat) {
    p + 3 <= i <= |url| && (url[i - 3] == '?' || url[i - 3] == '&') && url[i - 2] == 'v' && url[i - 1] == '='
    && DotsMatch(url, p, i - 3)
  }

  /** A match of the whole YouTube pattern starting at `s` whose id starts at `i`. */
  predicate YouTubeMatch(url: string, s: nat, i: nat) {
    IdAt(url, i)
    && ((OccursAt(url, "youtube.com/", s)
         && (PathShape(url, s + 12, i) || PrefixShape(url, s + 12, i) || QueryShape(url, s + 12, i)))
        || (OccursAt(url, "youtu.be/", s) && i == s + 9))
  }

  function PathWithId(url: string, p: nat): nat -> bool {
    (i: nat) => PathShape(url, p, i) && IdAt(url, i)
  }

  function QueryWithId(url: string, p: nat): nat -> bool {
    (i: nat) => QueryShape(url, p, i) && IdAt(url, i)
  }

  /** The first alternative: greedy `.+` backtracks to the last `/` that an id follows. */
  function PathAlt(url: string, p: nat): (r: Option<nat>)
    ensures r.None? <==> forall i: nat :: !(PathShape(url, p, i) && IdAt(url, i))
    ensures r.Some? ==> PathShape(url, p, r.value) && IdAt(url, r.value)
    ensures r.Some? ==> forall i: nat :: r.value < i ==> !(PathShape(url, p, i) && IdAt(url, i))
  {
    var P := PathWithId(url, p);
    assert forall i: nat :: PathShape(url, p, i) && IdAt(url, i) ==> p <= i < |url| + 1 && P(i);
    LastWhere(p, |url| + 1, P)
  }

  /** The second alternative: `v/`, `embed/` or `e/`, then an id. */
  function PrefixAlt(url: string, p: nat): (r: Option<nat>)
    ensures r.None? <==> forall i: nat :: !(PrefixShape(url, p, i) && IdAt(url, i))
    ensures r.Some? ==> PrefixShape(url, p, r.value) && IdAt(url, r.value)
  {
    if OccursAt(url, "v/", p) && IdAt(url, p + 2) then Some(p + 2)
    else if OccursAt(url, "embed/", p) && IdAt(url, p + 6) then Some(p + 6)
    else if OccursAt(url, "e/", p) && IdAt(url, p + 2) then Some(p + 2)
    else None
  }

  /** The third alternative: greedy `.*` backtracks to the last `?v=` or `&v=` that an id follows. */
  function QueryAlt(url: string, p: nat): (r: Option<nat>)
    ensures r.None? <==> forall i: nat :: !(QueryShape(url, p, i) && IdAt(url, i))
    ensures r.Some? ==> QueryShape(url, p, r.value) && IdAt(url, r.value)
    ensures r.Some? ==> forall i: nat :: r.value < i ==> !(QueryShape(url, p, i) && IdAt(url, i))
  {
    var P := QueryWithId(url, p);
    assert forall i: nat :: QueryShape(url, p, i) && IdAt(url, i) ==> p + 3 <= i < |url| + 1 && P(i);
    LastWhere(p + 3, |url| + 1, P)
  }

  /** The two host spellings differ at their sixth character, so at most one occurs at `s`. */
  lemma HostsExclusive(url: string, s: nat)
    requires OccursAt(url, "youtube.com/", s)
    ensures !OccursAt(url, "youtu.be/", s)
  {
    assert url[s + 5] == "youtube.com/"[5];
  }

  /** When the host is `youtube.com/` and no alternative finds an id, no match starts at `s`. */
  lemma NoAlternative(url: string, s: nat)
    requires OccursAt(url, "youtube.com/", s)
    requires PathAlt(url, s + 12).None? && PrefixAlt(url, s + 12).None? && QueryAlt(url, s + 12).None?
    ensures forall i: nat :: !YouTubeMatch(url, s, i)
  {
    HostsExclusive(url, s);
  }

  /** Where the id starts in the match at `s`, trying the alternatives in the pattern's order. */
  function MatchAt(url: string, s: nat): (r: Option<nat>)
    ensures r.None? <==> forall i: nat :: !YouTubeMatch(url, s, i)
    ensures r.Some? ==> YouTubeMatch(url, s, r.value)
  {
    if OccursAt(url, "youtube.com/", s) then
      var p := s + 12;
      HostsExclusive(url, s);
      match PathAlt(url, p)
      case Some(i) => assert YouTubeMatch(url, s, i); Some(i)
      case None =>
        match PrefixAlt(url, p)
        case Some(i) => assert YouTubeMatch(url, s, i); Some(i)
        case None =>
          var r := QueryAlt(url, p);
          if r.None? then NoAlternative(url, s); r else assert YouTubeMatch(url, s, r.value); r
    else if OccursAt(url, "youtu.be/", s) && IdAt(url, s + 9) then
      assert YouTubeMatch(url, s, s + 9); Some(s + 9)
    else None
  }

  function MatchesAt(url: string): nat -> bool {
    (s: nat) => MatchAt(url, s).Some?
  }

  /** The leftmost position where the YouTube pattern matches. */
  function YouTubeStart(url: string): Option<nat> {
    FirstWhere(0, |url| + 1, MatchesAt(url))
  }

  /** The eleven characters an id starting at `i` spans. */
  function Capture(url: string, i: nat): string {
    if i + 11 <= |url| then url[i..i + 11] else ""
  }

  /** `url.match(youtubePattern)?.[1]`. */
  function YouTubeId(url: string): (r: Option<string>)
    ensures r.Some? ==> |r.value| == 11
  {
    match YouTubeStart(url)
    case None => None
    case Some(s) => Some(Capture(url, MatchAt(url, s).value))
  }

  /** A match starts at `s` with its id at `i`, and no match starts earlier. */
  ghost predicate LeftmostMatch(url: string, s: nat, i: nat) {
    YouTubeMatch(url, s, i) && forall s': nat, i': nat :: s' < s ==> !YouTubeMatch(url, s', i')
  }

  /** A match cannot start past the end of the URL. */
  lemma MatchInside(url: string, s: nat, i: nat)
    requires YouTubeMatch(url, s, i)
    ensures s < |url| + 1 && MatchesAt(url)(s)
  {
  }

  /**
    The id is found iff the pattern matches somewhere, and then it is the
    eleven characters captured by a match at the leftmost position where any
    match starts.
   */
  lemma YouTubeIdSpec(url: string)
    ensures YouTubeId(url).None? <==> forall s, i :: !YouTubeMatch(url, s, i)
    ensures YouTubeId(url).Some? ==> exists s, i :: LeftmostMatch(url, s, i) && YouTubeId(url).value == Capture(url, i)
  {
    var start := YouTubeStart(url);
    if start.None? {
      forall s, i ensures !YouTubeMatch(url, s, i) {
        if YouTubeMatch(url, s, i) {
          MatchInside(url, s, i);
        }
      }
    } else {
      var s := start.value;
      var i := MatchAt(url, s).value;
      forall s', i' | s' < s ensures !YouTubeMatch(url, s', i') {
        assert !MatchesAt(url)(s');
      }
      assert LeftmostMatch(url, s, i);
    }
  }

  /* ---------- the Vimeo pattern ---------- */

  /** `vimeo\.com\/(\d+)` matches starting at `s`. */
  predicate VimeoMatch(url: string, s: nat) {
    OccursAt(url, "vimeo.com/", s) && s + 10 < |url| && IsDigit(url[s + 10])
  }

  function VimeoMatchIn(url: string): nat -> bool {
    (s: nat) => VimeoMatch(url, s)
  }

  /** The digit run `(\d+)` captures after a match at `s`. */
  function VimeoCapture(url: string, s: nat): string {
    if s + 10 <= |url| then url[s + 10..s + 10 + DigitRun(url[s + 10..])] else ""
  }

  /** `url.match(/vimeo\.com\/(\d+)/)?.[1]`: the whole digit run after the leftmost match. */
  function VimeoId(url: string): (r: Option<string>)
    ensures r.None? <==> forall s: nat :: !VimeoMatch(url, s)
    ensures r.Some? ==> exists s: nat ::
      VimeoMatch(url, s) && (forall s': nat :: s' < s ==> !VimeoMatch(url, s')) && r.value == VimeoCapture(url, s)
    ensures r.Some? ==> r.value != "" && AllDigits(r.value)
  {
    var P := VimeoMatchIn(url);
    assert forall s: nat :: VimeoMatch(url, s) ==> s < |url| && P(s);
    match FirstWhere(0, |url|, P)
    case None => None
    case Some(s) =>
      var tail := url[s + 10..];
      var k := DigitRun(tail);
      assert tail[..k] == VimeoCapture(url, s);
      assert VimeoMatch(url, s);
      Some(tail[..k])
  }

  /* ---------- the URLs ---------- */

  const YouTubeEmbedPrefix := "https://www.youtube.com/embed/"
  const YouTubeEmbedSuffix := "?autoplay=1&rel=0"
  const VimeoEmbedPrefix := "https://player.vimeo.com/video/"
  const VimeoEmbedSuffix := "?autoplay=1"

  /** `getEmbedUrl`: the player URL for the id, or the URL itself when no id is found or the platform is custom. */
  function EmbedUrl(url: string, platform: Platform): string {
    match platform
    case YouTube =>
      (match YouTubeId(url)
       case Some(id) => YouTubeEmbedPrefix + id + YouTubeEmbedSuffix
       case None => url)
    case Vimeo =>
      (match VimeoId(url)
       case Some(id) => VimeoEmbedPrefix + id + VimeoEmbedSuffix
       case None => url)
    case Custom => url
  }

  /** `getThumbnailUrl`: a non-empty `thumbnail` prop wins; otherwise the platform's image for the id, or empty. */
  function ThumbnailUrl(url: string, thumbnail: Option<string>, platform: Platform): string {
    if thumbnail.Some? && thumbnail.value != "" then thumbnail.value
    else
      match platform
      case YouTube =>
        (match YouTubeId(url)
         case Some(id) => "https://img.youtube.com/vi/" + id + "/maxresdefault.jpg"
         case None => "")
      case Vimeo =>
        (match VimeoId(url)
         case Some(id) => "https://vumbnail.com/" + id + ".jpg"
         case None => "")
      case Custom => ""
  }

  /**
    The embed URL is the URL itself exactly when no id is found (always, for
    a custom video); the thumbnail is empty in the same cases, unless one is
    supplied, in which case it is used whatever the platform.
   */
  lemma UrlsWithoutId(url: string, thumbnail: Option<string>, platform: Platform)
    ensures platform == Custom ==> EmbedUrl(url, platform) == url
    ensures platform == YouTube && YouTubeId(url).None? ==> EmbedUrl(url, platform) == url
    ensures platform == Vimeo && VimeoId(url).None? ==> EmbedUrl(url, platform) == url
    ensures thumbnail.Some? && thumbnail.value != "" ==> ThumbnailUrl(url, thumbnail, platform) == thumbnail.value
    ensures (thumbnail.None? || thumbnail.value == "") && platform == Custom ==> ThumbnailUrl(url, thumbnail, platform) == ""
    ensures (thumbnail.None? || thumbnail.value == "") && platform == YouTube && YouTubeId(url).None?
      ==> ThumbnailUrl(url, thumbnail, platform) == ""
    ensures (thumbnail.None? || thumbnail.value == "") && platform == Vimeo && VimeoId(url).None?
      ==> ThumbnailUrl(url, thumbnail, platform) == ""
  {
  }

  /* ---------- re-embedding ---------- */

  /** Eleven characters that the id group accepts. */
  predicate IsYouTubeId(id: string) {
    |id| == 11 && forall k :: 0 <= k < 11 ==> IdChar(id[k])
  }

  /** Every occurrence of a host spelling starts with `y`. */
  lemma HostStartsWithY(url: string, s: nat)
    requires OccursAt(url, "youtube.com/", s) || OccursAt(url, "youtu.be/", s)
    ensures s < |url| && url[s] == 'y'
  {
    if OccursAt(url, "youtube.com/", s) {
      assert url[s] == url[s..s + 12][0];
    } else {
      assert url[s] == url[s..s + 9][0];
    }
  }

  /** In a YouTube player URL, the pattern's leftmost match is at the host and captures the id. */
  lemma YouTubeEmbedMatch(id: string)
    requires IsYouTubeId(id)
    ensures MatchAt(YouTubeEmbedPrefix + id + YouTubeEmbedSuffix, 12) == Some(30)
  {
    var u := YouTubeEmbedPrefix + id + YouTubeEmbedSuffix;
    YouTubeEmbedParts(id);
    YouTubeEmbedSlashes(id);
    assert !OccursAt(u, "v/", 24) by { assert u[25] == 'm'; }
    assert PathAlt(u, 24).None?;
    assert PrefixAlt(u, 24) == Some(30);
  }

  lemma YouTubeEmbedParts(id: string)
    requires IsYouTubeId(id)
    ensures var u := YouTubeEmbedPrefix + id + YouTubeEmbedSuffix;
      |u| == 58 && OccursAt(u, "youtube.com/", 12) && OccursAt(u, "embed/", 24) && IdAt(u, 30)
  {
    var u := YouTubeEmbedPrefix + id + YouTubeEmbedSuffix;
    assert u[..30] == YouTubeEmbedPrefix;
    assert u[12..24] == YouTubeEmbedPrefix[12..24] == "youtube.com/";
    assert u[24..30] == YouTubeEmbedPrefix[24..30] == "embed/";
    assert u[30..41] == id;
  }

  /**
    The first `/` from the end of the host ends `embed/`, and none follows
    it, so the first alternative finds no second slash.
   */
  lemma YouTubeEmbedSlashes(id: string)
    requires IsYouTubeId(id)
    ensures var u := YouTubeEmbedPrefix + id + YouTubeEmbedSuffix;
      FirstSlash(u, 24) == Some(29) && forall k :: 30 <= k < |u| ==> u[k] != '/'
  {
    var u := YouTubeEmbedPrefix + id + YouTubeEmbedSuffix;
    assert u[24..30] == YouTubeEmbedPrefix[24..30] == "embed/";
    assert |u| == 58 && IsSlashIn(u)(29);
    forall k | 24 <= k < 29 ensures !IsSlashIn(u)(k) {
      assert u[k] == "embed/"[k - 24];
    }
    forall k | 30 <= k < |u| ensures u[k] != '/' {
      if k < 41 {
        assert u[k] == id[k - 30];
      } else {
        assert u[k] == YouTubeEmbedSuffix[k - 41];
      }
    }
  }

  /** No match starts before the host of a YouTube player URL. */
  lemma YouTubeEmbedNoEarlierMatch(id: string, s: nat)
    requires IsYouTubeId(id) && s < 12
    ensures !MatchesAt(YouTubeEmbedPrefix + id + YouTubeEmbedSuffix)(s)
  {
    var u := YouTubeEmbedPrefix + id + YouTubeEmbedSuffix;
    var head := u[..12];
    assert head == "https://www.";
    assert 'y' !in head;
    assert u[s] == head[s] && u[s] != 'y';
    if OccursAt(u, "youtube.com/", s) || OccursAt(u, "youtu.be/", s) {
      HostStartsWithY(u, s);
      assert false;
    }
  }

  /** The id found in the YouTube player URL built from `id` is `id` again. */
  lemma {:induction false} YouTubeIdOfEmbed(id: string)
    requires IsYouTubeId(id)
    ensures YouTubeId(YouTubeEmbedPrefix + id + YouTubeEmbedSuffix) == Some(id)
  {
    var u := YouTubeEmbedPrefix + id + YouTubeEmbedSuffix;
    YouTubeEmbedMatch(id);
    forall s: nat | s < 12 ensures !MatchesAt(u)(s) {
      YouTubeEmbedNoEarlierMatch(id, s);
    }
    FirstMatchFound(u, 12, 30);
    assert u[30..41] == id;
  }

  /** When the match at `s` has its id at `i` and no match starts earlier, that id is the one found. */
  lemma FirstMatchFound(url: string, s: nat, i: nat)
    requires MatchAt(url, s) == Some(i)
    requires forall s': nat :: s' < s ==> !MatchesAt(url)(s')
    ensures YouTubeId(url) == Some(Capture(url, i))
  {
    MatchInside(url, s, i);
    var r := YouTubeStart(url);
    assert r.Some?;
    assert r.value == s;
  }

  /** A Vimeo player URL holds `vimeo.com/` only before `video/`, so it has no Vimeo match. */
  lemma {:induction false} VimeoEmbedHasNoMatch(id: string)
    requires AllDigits(id)
    ensures VimeoId(VimeoEmbedPrefix + id + VimeoEmbedSuffix).None?
  {
    var u := VimeoEmbedPrefix + id + VimeoEmbedSuffix;
    forall s: nat ensures !VimeoMatch(u, s) {
      if VimeoMatch(u, s) {
        VimeoMatchChars(u, s);
        VimeoCharsOutsideDigits(id, s);
        assert false;
      }
    }
  }

  /** A Vimeo match is a `v`, an `m` two later and a digit ten later. */
  lemma VimeoMatchChars(url: string, s: nat)
    requires VimeoMatch(url, s)
    ensures url[s] == 'v' && url[s + 2] == 'm' && IsDigit(url[s + 10])
  {
    assert url[s] == url[s..s + 10][0] && url[s + 2] == url[s..s + 10][2];
  }

  /** Where a Vimeo player URL has `v` followed two later by `m`, ten later comes `v`, not a digit. */
  lemma VimeoCharsOutsideDigits(id: string, s: nat)
    requires AllDigits(id)
    requires s + 10 < |VimeoEmbedPrefix + id + VimeoEmbedSuffix|
    requires (VimeoEmbedPrefix + id + VimeoEmbedSuffix)[s] == 'v'
    requires (VimeoEmbedPrefix + id + VimeoEmbedSuffix)[s + 2] == 'm'
    ensures !IsDigit((VimeoEmbedPrefix + id + VimeoEmbedSuffix)[s + 10])
  {
  }

  /**
    Embedding is idempotent: the player URL that `getEmbedUrl` builds is left
    as it is when it is given again.
   */
  lemma {:induction false} EmbedUrlIdempotent(url: string, platform: Platform)
    ensures EmbedUrl(EmbedUrl(url, platform), platform) == EmbedUrl(url, platform)
  {
    match platform
    case YouTube =>
      if YouTubeId(url).Some? {
        var id := YouTubeId(url).value;
        YouTubeIdSpec(url);
        var s, i :| LeftmostMatch(url, s, i) && id == Capture(url, i);
        assert IsYouTubeId(id);
        YouTubeIdOfEmbed(id);
      }
    case Vimeo =>
      if VimeoId(url).Some? {
        VimeoEmbedHasNoMatch(VimeoId(url).value);
      }
    case Custom =>
  }
}
