/**
  The thumbnail extractor of the blog feed: JavaScript's `String.prototype.match`
  with the pattern

      <img[^>]+src="([^">]+)"

  (no `g` flag), returning capture group 1 of the first match.

  The module has two halves. `Match` and `Preferred` say declaratively what a
  match of the pattern is and which one the backtracking engine reports: the
  leftmost start, and for that start the latest `src="` (the `[^>]+` group is
  greedy). `FirstImgSrc` computes it by recursion, and `FirstImgSrcIsRegexMatch`
  proves that the two agree.
*/
module ImgSrc {
  import opened Wrappers

  /** The literal that starts the pattern. */
  const ImgOpen: string := "<img"
  /** The literal in front of the capture group. */
  const SrcOpen: string := "src=\""

  /** A character the capture group `[^">]` accepts. */
  predicate IsValueChar(c: char) {
    c != '"' && c != '>'
  }

  /** The word `w` occurs in `s` at position `p`. */
  predicate HasAt(s: string, p: int, w: string) {
    0 <= p && p + |w| <= |s| && s[p..p + |w|] == w
  }

  // ---------------------------------------------------------------------------
  // Reference semantics
  // ---------------------------------------------------------------------------

  /**
    The pattern matches `s` with `<img` at `p`, `[^>]+` spanning `s[p+4..k]`,
    `src="` at `k`, capture group 1 spanning `s[k+5..e]` and the closing `"` at `e`.
  */
  ghost predicate Match(s: string, p: int, k: int, e: int) {
    && HasAt(s, p, ImgOpen)
    && p + 4 < k
    && HasAt(s, k, SrcOpen)
    && (forall t :: p + 4 <= t < k ==> s[t] != '>')
    && k + 5 < e < |s|
    && (forall t :: k + 5 <= t < e ==> IsValueChar(s[t]))
    && s[e] == '"'
  }

  /**
    The match the regular-expression engine reports: no match starts further
    left, and among those starting at `p` none places `src="` later.
  */
  ghost predicate Preferred(s: string, p: int, k: int, e: int) {
    && Match(s, p, k, e)
    && forall p', k', e' :: Match(s, p', k', e') ==> p < p' || (p == p' && k' <= k)
  }

  // ---------------------------------------------------------------------------
  // Computation
  // ---------------------------------------------------------------------------

  /** The first position at or after `i` holding `>`, or `|s|` when there is none. */
  function NextGt(s: string, i: nat): (j: nat)
    requires i <= |s|
    ensures i <= j <= |s|
    ensures j < |s| ==> s[j] == '>'
    ensures forall t :: i <= t < j ==> s[t] != '>'
    decreases |s| - i
  {
    if i == |s| || s[i] == '>' then i else NextGt(s, i + 1)
  }

  /** The end of the run of characters accepted by `[^">]` that starts at `i`. */
  function ValueEnd(s: string, i: nat): (j: nat)
    requires i <= |s|
    ensures i <= j <= |s|
    ensures j < |s| ==> !IsValueChar(s[j])
    ensures forall t :: i <= t < j ==> IsValueChar(s[t])
    decreases |s| - i
  {
    if i == |s| || !IsValueChar(s[i]) then i else ValueEnd(s, i + 1)
  }

  /**
    The tail `src="([^">]+)"` of the pattern matches at `k`. The greedy group
    takes the whole run of value characters; a shorter run ends before a value
    character, which is never `"`, so the whole run is the only candidate.
  */
  predicate SrcAt(s: string, k: nat) {
    && HasAt(s, k, SrcOpen)
    && var e := ValueEnd(s, k + 5);
    && k + 5 < e < |s|
    && s[e] == '"'
  }

  /** The greatest `k` in `[lo, hi)` at which `SrcAt` holds. */
  function LastSrc(s: string, lo: nat, hi: nat): (r: Option<nat>)
    ensures r.Some? ==> lo <= r.value < hi && SrcAt(s, r.value)
    ensures r.Some? ==> forall k :: r.value < k < hi ==> !SrcAt(s, k)
    ensures r.None? ==> forall k :: lo <= k < hi ==> !SrcAt(s, k)
    decreases hi
  {
    if hi <= lo then None
    else if SrcAt(s, hi - 1) then Some(hi - 1)
    else LastSrc(s, lo, hi - 1)
  }

  /**
    The position of `src="` in the match that starts at `p`, if one does:
    `[^>]+` needs at least one character and cannot cross a `>`, and being
    greedy it tries the latest `src="` first.
  */
  function SrcAfterImg(s: string, p: nat): (r: Option<nat>)
    ensures r.Some? ==> HasAt(s, p, ImgOpen) && p + 5 <= r.value && SrcAt(s, r.value)
    ensures r.Some? ==> r.value < NextGt(s, p + 4)
  {
    if HasAt(s, p, ImgOpen) then LastSrc(s, p + 5, NextGt(s, p + 4)) else None
  }

  /** The leftmost start at or after `from` where the pattern matches, with its `src="` position. */
  function MatchFrom(s: string, from: nat): (r: Option<(nat, nat)>)
    requires from <= |s|
    ensures r.Some? ==> from <= r.value.0 && SrcAfterImg(s, r.value.0) == Some(r.value.1)
    ensures r.Some? ==> forall q :: from <= q < r.value.0 ==> SrcAfterImg(s, q).None?
    ensures r.None? ==> forall q :: from <= q <= |s| ==> SrcAfterImg(s, q).None?
    decreases |s| - from
  {
    match SrcAfterImg(s, from)
    case Some(k) => Some((from, k))
    case None => if from == |s| then None else MatchFrom(s, from + 1)
  }

  /**
    Capture group 1 of `s.match(/<img[^>]+src="([^">]+)"/)`, or `None` when
    the pattern does not match. A capture is never empty and holds no `"`
    and no `>`.
  */
  function FirstImgSrc(s: string): (r: Option<string>)
    ensures r.Some? ==> |r.value| > 0
    ensures r.Some? ==> forall i :: 0 <= i < |r.value| ==> IsValueChar(r.value[i])
  {
    match MatchFrom(s, 0)
    case None => None
    case Some((_, k)) => Some(s[k + 5..ValueEnd(s, k + 5)])
  }

  // ---------------------------------------------------------------------------
  // Agreement of the computation with the reference semantics
  // ---------------------------------------------------------------------------

  /**
    The tail `src="([^">]+)"` matches at `k` with its closing `"` at `e`
    exactly when `SrcAt` holds at `k` and `e` is `ValueEnd`: the closing quote
    has only one possible place.
  */
  lemma SrcAtIffTail(s: string, k: nat, e: int)
    ensures (&& HasAt(s, k, SrcOpen)
             && k + 5 < e < |s| && s[e] == '"'
             && forall t :: k + 5 <= t < e ==> IsValueChar(s[t]))
        <==> SrcAt(s, k) && e == ValueEnd(s, k + 5)
  {
  }

  /** Every match starting at an `<img` position p uses a `src="` no later than the one `SrcAfterImg` picks, and that one is a match. */
  lemma SrcAfterImgIsGreedy(s: string, p: nat)
    ensures SrcAfterImg(s, p).Some? ==>
              Match(s, p, SrcAfterImg(s, p).value, ValueEnd(s, SrcAfterImg(s, p).value + 5))
    ensures forall k, e :: Match(s, p, k, e) ==>
              SrcAfterImg(s, p).Some? && k <= SrcAfterImg(s, p).value
  {
    var r := SrcAfterImg(s, p);
    if r.Some? {
      var k := r.value;
      assert forall t :: p + 4 <= t < k ==> s[t] != '>';
    }
    forall k, e | Match(s, p, k, e)
      ensures SrcAfterImg(s, p).Some? && k <= SrcAfterImg(s, p).value
    {
      SrcAtIffTail(s, k, e);
      var m := NextGt(s, p + 4);
      assert p + 5 <= k < m;
    }
  }

  /**
    `FirstImgSrc` is the capture of exactly the match the regular-expression
    engine reports: it is `None` exactly when nothing matches, and otherwise
    the text between `src="` and `"` of the preferred match.
  */
  lemma FirstImgSrcIsRegexMatch(s: string)
    ensures FirstImgSrc(s).None? <==> forall p, k, e :: !Match(s, p, k, e)
    ensures FirstImgSrc(s).Some? ==>
              exists p, k, e :: Preferred(s, p, k, e) && FirstImgSrc(s).value == s[k + 5..e]
  {
    var r := MatchFrom(s, 0);
    if r.None? {
      forall p, k, e | Match(s, p, k, e) ensures false {
        SrcAfterImgIsGreedy(s, p);
      }
    } else {
      var p, k := r.value.0, r.value.1;
      var e := ValueEnd(s, k + 5);
      SrcAfterImgIsGreedy(s, p);
      assert Match(s, p, k, e);
      forall p', k', e' | Match(s, p', k', e') ensures p < p' || (p == p' && k' <= k) {
        SrcAfterImgIsGreedy(s, p');
      }
      assert Preferred(s, p, k, e);
    }
  }

  /** Conversely, the capture of the preferred match is what `FirstImgSrc` returns. */
  lemma PreferredIsFirstImgSrc(s: string, p: int, k: int, e: int)
    requires Preferred(s, p, k, e)
    ensures FirstImgSrc(s) == Some(s[k + 5..e])
  {
    FirstImgSrcIsRegexMatch(s);
    var p', k', e' :| Preferred(s, p', k', e') && FirstImgSrc(s).value == s[k' + 5..e'];
    assert p == p' && k == k';
    SrcAtIffTail(s, k, e);
    SrcAtIffTail(s, k, e');
  }

  // ---------------------------------------------------------------------------
  // Characterisations of the search functions, and a typical tag
  // ---------------------------------------------------------------------------

  /** `NextGt` is pinned down by what it promises. */
  lemma NextGtIs(s: string, i: nat, j: nat)
    requires i <= j <= |s| && (j < |s| ==> s[j] == '>')
    requires forall t :: i <= t < j ==> s[t] != '>'
    ensures NextGt(s, i) == j
  {
  }

  /** `ValueEnd` is pinned down by what it promises. */
  lemma ValueEndIs(s: string, i: nat, j: nat)
    requires i <= j <= |s| && (j < |s| ==> !IsValueChar(s[j]))
    requires forall t :: i <= t < j ==> IsValueChar(s[t])
    ensures ValueEnd(s, i) == j
  {
  }

  /** A plain tag `<img src="url">` yields `url`, for every non-empty `url` without `"` or `>`. */
  lemma PlainTag(url: string)
    requires |url| > 0 && forall i :: 0 <= i < |url| ==> IsValueChar(url[i])
    ensures FirstImgSrc("<img src=\"" + url + "\">") == Some(url)
  {
    var s := "<img src=\"" + url + "\">";
    var n := |s|;
    assert n == |url| + 12;
    assert s[..4] == ImgOpen;
    assert s[5..10] == SrcOpen;
    assert forall i :: 0 <= i < |url| ==> s[10 + i] == url[i];
    assert s[n - 2] == '"' && s[n - 1] == '>';
    assert forall t :: 10 <= t < n - 2 ==> IsValueChar(s[t]) by {
      forall t | 10 <= t < n - 2 ensures IsValueChar(s[t]) {
        assert s[t] == url[t - 10];
      }
    }
    assert forall t :: 4 <= t < 10 ==> s[t] != '>';
    NextGtIs(s, 4, n - 1);
    ValueEndIs(s, 10, n - 2);
    ValueEndIs(s, n - 1, n - 1);
    assert SrcAt(s, 5);
    forall k | 5 < k < n - 1 ensures !SrcAt(s, k) {
      if HasAt(s, k, SrcOpen) {
        assert s[k..k + 5][4] == s[k + 4] == '"';
        assert k + 4 == n - 2;
      }
    }
    assert LastSrc(s, 5, n - 1) == Some(5);
    assert MatchFrom(s, 0) == Some((0, 5));
    assert s[10..n - 2] == url;
  }

  /** `<img src="a" data-src="b">` */
  function TwoSrcTag(a: string, b: string): string {
    "<img src=\"" + a + "\" data-src=\"" + b + "\">"
  }

  /** The shape of the tag `TwoSrcTag(a, b)`, character by character. */
  lemma TwoSrcTagShape(a: string, b: string)
    requires forall i :: 0 <= i < |a| ==> IsValueChar(a[i])
    requires forall i :: 0 <= i < |b| ==> IsValueChar(b[i])
    ensures var s, j := TwoSrcTag(a, b), |a| + 17;
      && |s| == j + |b| + 7
      && s[..4] == ImgOpen
      && s[j..j + 5] == SrcOpen
      && s[j + 5..|s| - 2] == b
      && s[|s| - 2] == '"' && s[|s| - 1] == '>'
      && (forall t :: 4 <= t < |s| - 1 ==> s[t] != '>')
      && (forall t :: j + 5 <= t < |s| - 2 ==> IsValueChar(s[t]))
  {
  }

  /**
    Greedy `[^>]+`: in `<img src="a" data-src="b">` the later `src="` wins, so
    the result is `b`. This also shows that attributes in front of the chosen
    `src="` do not stop the pattern from matching.
  */
  lemma LatestSrcWins(a: string, b: string)
    requires |a| > 0 && forall i :: 0 <= i < |a| ==> IsValueChar(a[i])
    requires |b| > 0 && forall i :: 0 <= i < |b| ==> IsValueChar(b[i])
    ensures FirstImgSrc(TwoSrcTag(a, b)) == Some(b)
  {
    var s, j := TwoSrcTag(a, b), |a| + 17;
    var n := |s|;
    TwoSrcTagShape(a, b);
    NextGtIs(s, 4, n - 1);
    ValueEndIs(s, j + 5, n - 2);
    ValueEndIs(s, n - 1, n - 1);
    assert SrcAt(s, j);
    forall k | j < k < n - 1 ensures !SrcAt(s, k) {
      if HasAt(s, k, SrcOpen) {
        assert s[k..k + 5][4] == s[k + 4] == '"';
        assert k + 4 == n - 2;
      }
    }
    assert LastSrc(s, 5, n - 1) == Some(j);
    assert MatchFrom(s, 0) == Some((0, j));
  }
}
