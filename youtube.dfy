/** `getYouTubeVideoId` of js/youtube.js: four patterns anchored at the start of the URL,
    tried in order, the first that matches giving the captured id. */
module YouTube {
  import opened Common

  datatype Pattern = YoutuBe | Watch | Embed | Shorts

  /** The order in which the patterns are tried. */
  const Patterns: seq<Pattern> := [YoutuBe, Watch, Embed, Shorts]

  /** The characters that end the captured run: `[^?#]+` for the path forms, `[^&#]+` for the
      `v=` parameter. */
  function Stops(p: Pattern): set<char> {
    if p == Watch then {'&', '#'} else {'?', '#'}
  }

  /** The characters JavaScript's `.` does not match. */
  predicate IsLineTerminator(c: char) {
    c == '\n' || c == '\r' || c == '\U{2028}' || c == '\U{2029}'
  }

  /** The maximal run at the front of `s` of characters outside `stops`. */
  function RunUntil(s: string, stops: set<char>): string {
    if s == [] || s[0] in stops then [] else [s[0]] + RunUntil(s[1..], stops)
  }

  /** The run is a prefix of `s`, holds no stop, and ends at a stop or at the end of `s`. */
  lemma {:induction false} RunUntilMaximal(s: string, stops: set<char>)
    ensures RunUntil(s, stops) <= s
    ensures forall k | 0 <= k < |RunUntil(s, stops)| :: RunUntil(s, stops)[k] !in stops
    ensures |RunUntil(s, stops)| < |s| ==> s[|RunUntil(s, stops)|] in stops
    decreases |s|
  {
    if s != [] && s[0] !in stops {
      RunUntilMaximal(s[1..], stops);
      var r := RunUntil(s[1..], stops);
      assert RunUntil(s, stops) == [s[0]] + r;
      assert forall k | 1 <= k < |r| + 1 :: ([s[0]] + r)[k] == r[k - 1];
    }
  }

  /** The position after `prefix` when it occurs at `i`. */
  function After(url: string, i: nat, prefix: string): (r: Option<nat>)
    ensures r.Some? <==> i <= |url| && prefix <= url[i..]
    ensures r.Some? ==> r.value == i + |prefix| <= |url|
  {
    if i <= |url| && prefix <= url[i..] then Some(i + |prefix|) else None
  }

  /** `^https?://`: the position after the scheme. */
  function SchemeEnd(url: string): (r: Option<nat>)
    ensures r.Some? <==> "http://" <= url || "https://" <= url
    ensures r.Some? ==> r.value <= |url|
  {
    match After(url, 0, "https://")
    case Some(i) => Some(i)
    case None => After(url, 0, "http://")
  }

  /** `(?:.*&)?v=` is greedy: the `&` taken is the last one that is followed by `v=` and a
      character outside `[&#]`, with no line terminator between `watch?` and it. */
  predicate AmpersandV(url: string, w: nat, l: nat) {
    w <= l && l + 3 < |url| && url[l] == '&' && url[l + 1] == 'v' && url[l + 2] == '=' &&
    url[l + 3] !in {'&', '#'} && forall k | w <= k < l :: !IsLineTerminator(url[k])
  }

  /** Searches `l` downwards from `top`: the greatest `l` with `AmpersandV` holding. */
  function LastAmpersandV(url: string, w: nat, top: nat): (r: Option<nat>)
    ensures r.Some? ==> w <= r.value <= top && AmpersandV(url, w, r.value)
    decreases top
  {
    if AmpersandV(url, w, top) then Some(top)
    else if top <= w then None
    else LastAmpersandV(url, w, top - 1)
  }

  /** The search finds the last such `&`, and finds none only when there is none. */
  lemma {:induction false} LastAmpersandVIsLast(url: string, w: nat, top: nat)
    ensures LastAmpersandV(url, w, top).Some? ==>
      forall l | LastAmpersandV(url, w, top).value < l <= top :: !AmpersandV(url, w, l)
    ensures LastAmpersandV(url, w, top).None? ==> forall l | w <= l <= top :: !AmpersandV(url, w, l)
    decreases top
  {
    if !AmpersandV(url, w, top) && top > w {
      LastAmpersandVIsLast(url, w, top - 1);
    }
  }

  /** Where the `v=` value begins, for the part of a watch URL that starts at `w`. */
  function WatchValueStart(url: string, w: nat): (r: Option<nat>)
    requires w <= |url|
    ensures r.Some? ==> w + 2 <= r.value < |url|
  {
    match LastAmpersandV(url, w, |url|)
    case Some(l) => Some(l + 3)
    case None =>
      if w + 2 < |url| && url[w] == 'v' && url[w + 1] == '=' && url[w + 2] !in {'&', '#'}
      then Some(w + 2) else None
  }

  /** `(?:www\.)?` is greedy, and a host without `www.` cannot start with `www.`, so the
      optional part is taken exactly when it is there. */
  function HostStart(url: string, i: nat): (j: nat)
    requires i <= |url|
    ensures j <= |url|
  {
    if "www." <= url[i..] then i + 4 else i
  }

  /** What the three `youtube.com` patterns expect after the optional `www.`. */
  function HostPath(p: Pattern): string
    requires p != YoutuBe
  {
    match p
    case Watch => "youtube.com/watch?"
    case Embed => "youtube.com/embed/"
    case Shorts => "youtube.com/shorts/"
  }

  /** The value begins right after a `v=`, at a character outside `[&#]`, after the last `&v=`
      there is, or directly after `watch?` when there is none. */
  lemma WatchValueStartShape(url: string, w: nat)
    requires w <= |url|
    ensures WatchValueStart(url, w).Some? ==>
      var k := WatchValueStart(url, w).value;
      url[k - 2] == 'v' && url[k - 1] == '=' && url[k] !in {'&', '#'}
    ensures LastAmpersandV(url, w, |url|).Some? ==>
      WatchValueStart(url, w) == Some(LastAmpersandV(url, w, |url|).value + 3) &&
      forall l | LastAmpersandV(url, w, |url|).value < l <= |url| :: !AmpersandV(url, w, l)
  {
    LastAmpersandVIsLast(url, w, |url|);
  }

  /** Where the captured group of pattern `p` would begin in `url`. */
  function CaptureStart(p: Pattern, url: string): (r: Option<nat>)
    ensures r.Some? ==> r.value <= |url|
    ensures SchemeEnd(url).None? ==> r.None?
  {
    match SchemeEnd(url)
    case None => None
    case Some(i) =>
      if p == YoutuBe then After(url, i, "youtu.be/")
      else
        match After(url, HostStart(url, i), HostPath(p))
        case None => None
        case Some(w) => if p == Watch then WatchValueStart(url, w) else Some(w)
  }

  /** `url.match(pattern)` with its first group: the captured run must be non-empty. */
  function MatchPattern(p: Pattern, url: string): Option<string> {
    match CaptureStart(p, url)
    case None => None
    case Some(k) =>
      var v := RunUntil(url[k..], Stops(p));
      if v == [] then None else Some(v)
  }

  /** A match is the maximal non-empty run of characters outside the pattern's stops, starting
      where its group begins. */
  lemma MatchPatternShape(p: Pattern, url: string)
    ensures MatchPattern(p, url).Some? ==>
      CaptureStart(p, url).Some? &&
      MatchPattern(p, url).value == RunUntil(url[CaptureStart(p, url).value..], Stops(p))
    ensures MatchPattern(p, url).Some? ==>
      MatchPattern(p, url).value != [] &&
      forall k | 0 <= k < |MatchPattern(p, url).value| :: MatchPattern(p, url).value[k] !in Stops(p)
  {
    if CaptureStart(p, url).Some? {
      RunUntilMaximal(url[CaptureStart(p, url).value..], Stops(p));
    }
  }

  /** What each pattern gives, in the order they are tried. */
  function Attempts(url: string): seq<Option<string>> {
    seq(|Patterns|, j requires 0 <= j < |Patterns| => MatchPattern(Patterns[j], url))
  }

  /** The pattern loop: the first attempt that matched. */
  function FirstSome(rs: seq<Option<string>>): Option<string> {
    if rs == [] then None
    else if rs[0].Some? then rs[0]
    else FirstSome(rs[1..])
  }

  /** `getYouTubeVideoId(url)`; `null`, `undefined` and `""` are `None` or the empty string. */
  function VideoId(url: Option<string>): Option<string> {
    if url.None? || url.value == [] then None else FirstSome(Attempts(url.value))
  }

  lemma {:induction false} FirstSomeIsFirst(rs: seq<Option<string>>)
    ensures FirstSome(rs).None? <==> forall j | 0 <= j < |rs| :: rs[j].None?
    ensures FirstSome(rs).Some? ==> exists i | 0 <= i < |rs| ::
      FirstSome(rs) == rs[i] && forall j | 0 <= j < i :: rs[j].None?
    decreases |rs|
  {
    if rs != [] {
      FirstSomeIsFirst(rs[1..]);
      if rs[0].None? && FirstSome(rs).Some? {
        var i :| 0 <= i < |rs[1..]| && FirstSome(rs[1..]) == rs[1..][i] &&
          forall j | 0 <= j < i :: rs[1..][j].None?;
        assert FirstSome(rs) == rs[i + 1];
        assert forall j | 0 <= j < i + 1 :: rs[j].None? by {
          forall j | 0 <= j < i + 1 ensures rs[j].None? {
            if j > 0 { assert rs[j] == rs[1..][j - 1]; }
          }
        }
      }
    }
  }

  /** The patterns are tried in order and the first that matches gives the result; when none
      matches, or the URL is missing or empty, the result is `None`. */
  lemma VideoIdFirstMatchWins(url: Option<string>)
    ensures VideoId(url).None? <==>
      url.None? || url.value == [] || forall j | 0 <= j < 4 :: Attempts(url.value)[j].None?
    ensures VideoId(url).Some? ==> exists i | 0 <= i < 4 ::
      VideoId(url) == Attempts(url.value)[i] && forall j | 0 <= j < i :: Attempts(url.value)[j].None?
  {
    if url.Some? && url.value != [] {
      FirstSomeIsFirst(Attempts(url.value));
    }
  }

  /** A URL that does not begin with `http://` or `https://` has no id. */
  lemma NoSchemeNoId(url: string)
    requires !("http://" <= url) && !("https://" <= url)
    ensures VideoId(Some(url)) == None
  {
    var rs := Attempts(url);
    FirstSomeIsFirst(rs);
  }

  /** Every id found is non-empty and holds no `#`. */
  lemma VideoIdShape(url: Option<string>)
    ensures VideoId(url).Some? ==> VideoId(url).value != [] && '#' !in VideoId(url).value
  {
    VideoIdFirstMatchWins(url);
    if VideoId(url).Some? {
      var i :| 0 <= i < 4 && VideoId(url) == Attempts(url.value)[i];
      MatchPatternShape(Patterns[i], url.value);
      assert '#' in Stops(Patterns[i]);
    }
  }

  /** A prefix fails as soon as one of its characters differs. */
  lemma NotPrefix(s: string, p: string, k: nat)
    requires k < |p| && (k >= |s| || s[k] != p[k])
    ensures !(p <= s)
  {
  }

  /** The pattern loop unrolled over four attempts. */
  lemma FirstSomeOfFour(a: Option<string>, b: Option<string>, c: Option<string>, d: Option<string>)
    ensures FirstSome([a, b, c, d]) ==
      if a.Some? then a else if b.Some? then b else if c.Some? then c else d
  {
    assert [d][1..] == [];
    assert FirstSome([d]) == d;
    assert [c, d][1..] == [d];
    assert FirstSome([c, d]) == if c.Some? then c else d;
    assert [b, c, d][1..] == [c, d];
    assert FirstSome([b, c, d]) == if b.Some? then b else FirstSome([c, d]);
    assert [a, b, c, d][1..] == [b, c, d];
  }

  /** The pattern loop unrolled over the four patterns. */
  lemma VideoIdChain(url: string)
    requires url != []
    ensures VideoId(Some(url)) ==
      if MatchPattern(YoutuBe, url).Some? then MatchPattern(YoutuBe, url)
      else if MatchPattern(Watch, url).Some? then MatchPattern(Watch, url)
      else if MatchPattern(Embed, url).Some? then MatchPattern(Embed, url)
      else MatchPattern(Shorts, url)
  {
    assert Attempts(url) ==
      [MatchPattern(YoutuBe, url), MatchPattern(Watch, url), MatchPattern(Embed, url), MatchPattern(Shorts, url)];
    FirstSomeOfFour(MatchPattern(YoutuBe, url), MatchPattern(Watch, url), MatchPattern(Embed, url), MatchPattern(Shorts, url));
  }

  /** A `youtu.be` URL: the id is the maximal non-empty run after `youtu.be/` without `?` or
      `#`, and without such a run there is no id. */
  lemma YoutuBeId(url: string, i: nat)
    requires SchemeEnd(url) == Some(i) && "youtu.be/" <= url[i..]
    ensures VideoId(Some(url)) ==
      (var v := RunUntil(url[i + 9..], {'?', '#'}); if v == [] then None else Some(v))
  {
    assert url[i..][0] == 'y' && url[i..][5] == '.';
    NotPrefix(url[i..], "www.", 0);
    assert HostStart(url, i) == i;
    NotPrefix(url[i..], "youtube.com/watch?", 5);
    NotPrefix(url[i..], "youtube.com/embed/", 5);
    NotPrefix(url[i..], "youtube.com/shorts/", 5);
    VideoIdChain(url);
  }

  /** A host `youtube.com/` never matches the `youtu.be` pattern. */
  lemma NotYoutuBe(url: string, i: nat)
    requires SchemeEnd(url) == Some(i) && "youtube.com/" <= url[HostStart(url, i)..]
    ensures MatchPattern(YoutuBe, url).None?
  {
    if HostStart(url, i) == i {
      assert url[i..][5] == 'b';
      NotPrefix(url[i..], "youtu.be/", 5);
    } else {
      assert url[i..][0] == 'w';
      NotPrefix(url[i..], "youtu.be/", 0);
    }
  }

  /** Past `youtube.com/` the three patterns part ways at their first character. */
  lemma OtherHostPath(url: string, i: nat, p: Pattern, q: Pattern)
    requires p != YoutuBe && q != YoutuBe && p != q
    requires SchemeEnd(url) == Some(i) && HostPath(p) <= url[HostStart(url, i)..]
    ensures CaptureStart(q, url) == None
  {
    var j := HostStart(url, i);
    assert url[j..][12] == HostPath(p)[12];
    NotPrefix(url[j..], HostPath(q), 12);
  }

  /** `embed/` and `shorts/` URLs, with or without `www.`, give the maximal non-empty run after
      the prefix without `?` or `#`, and none without such a run. */
  lemma EmbedOrShortsId(url: string, i: nat, p: Pattern)
    requires p == Embed || p == Shorts
    requires SchemeEnd(url) == Some(i) && HostPath(p) <= url[HostStart(url, i)..]
    ensures VideoId(Some(url)) ==
      (var v := RunUntil(url[HostStart(url, i) + |HostPath(p)|..], {'?', '#'}); if v == [] then None else Some(v))
  {
    EmbedOrShortsOnly(url, i, p);
  }

  /** On an `embed/` or `shorts/` URL only that pattern can match, and its group begins right
      after the path. */
  lemma EmbedOrShortsOnly(url: string, i: nat, p: Pattern)
    requires p == Embed || p == Shorts
    requires SchemeEnd(url) == Some(i) && HostPath(p) <= url[HostStart(url, i)..]
    ensures VideoId(Some(url)) == MatchPattern(p, url)
    ensures CaptureStart(p, url) == Some(HostStart(url, i) + |HostPath(p)|)
  {
    var j := HostStart(url, i);
    assert url[j..][..12] == "youtube.com/";
    NotYoutuBe(url, i);
    OtherHostPath(url, i, p, Watch);
    OtherHostPath(url, i, p, if p == Embed then Shorts else Embed);
    VideoIdChain(url);
  }

  /** On a `watch?` URL only the watch pattern can match, and its group begins where the
      `v=` value does. */
  lemma WatchOnly(url: string, i: nat)
    requires SchemeEnd(url) == Some(i) && HostPath(Watch) <= url[HostStart(url, i)..]
    ensures VideoId(Some(url)) == MatchPattern(Watch, url)
    ensures CaptureStart(Watch, url) == WatchValueStart(url, HostStart(url, i) + 18)
  {
    var j := HostStart(url, i);
    assert url[j..][..12] == "youtube.com/";
    NotYoutuBe(url, i);
    OtherHostPath(url, i, Watch, Embed);
    OtherHostPath(url, i, Watch, Shorts);
    VideoIdChain(url);
    assert After(url, j, HostPath(Watch)) == Some(j + 18);
  }

  /** A `watch?` URL gives, when it gives anything, the non-empty run without `&` or `#` right
      after a `v=`; it gives something exactly when such a `v=` is found. */
  lemma WatchId(url: string, i: nat)
    requires SchemeEnd(url) == Some(i) && HostPath(Watch) <= url[HostStart(url, i)..]
    ensures VideoId(Some(url)).Some? ==> exists k | 2 <= k < |url| ::
      url[k - 2] == 'v' && url[k - 1] == '=' && VideoId(Some(url)) == Some(RunUntil(url[k..], {'&', '#'}))
    ensures VideoId(Some(url)).Some? <==> WatchValueStart(url, HostStart(url, i) + 18).Some?
  {
    WatchOnly(url, i);
    WatchMatch(url, HostStart(url, i) + 18);
  }

  /** The watch pattern, once its group begins where the `v=` value after `w` does. */
  lemma WatchMatch(url: string, w: nat)
    requires w <= |url| && CaptureStart(Watch, url) == WatchValueStart(url, w)
    ensures MatchPattern(Watch, url).Some? ==> exists k | 2 <= k < |url| ::
      url[k - 2] == 'v' && url[k - 1] == '=' && MatchPattern(Watch, url) == Some(RunUntil(url[k..], {'&', '#'}))
    ensures MatchPattern(Watch, url).Some? <==> WatchValueStart(url, w).Some?
  {
    WatchValueStartShape(url, w);
    if WatchValueStart(url, w).Some? {
      WatchMatchAt(url, WatchValueStart(url, w).value);
    }
  }

  /** A watch group that begins at a character outside `&` and `#` captures the run from there. */
  lemma WatchMatchAt(url: string, k: nat)
    requires k < |url| && url[k] !in {'&', '#'} && CaptureStart(Watch, url) == Some(k)
    ensures MatchPattern(Watch, url) == Some(RunUntil(url[k..], {'&', '#'}))
  {
    assert url[k..][0] == url[k];
    assert RunUntil(url[k..], {'&', '#'}) != [];
  }
}
