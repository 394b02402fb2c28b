// The posts the browser agent builds from the signals of a GraphQL response:
// which URLs it keeps, which of them carry no locator, and which posts without
// an id are therefore merged into one.
module PostUrls {
  import opened Prelude
  import opened PostMerge
  import opened CaptureRuns
  import opened ScriptScanner
  import opened Text

  // ---- The URLs kept ------------------------------------------------------

  // What facebookPostUrl reads of a URL: whether the host is Facebook's, the
  // path, and the two parameters.
  datatype RawUrl = RawUrl(ownHost: bool, pathname: string, storyId: Option<string>, ownerId: Option<string>)

  const PERMALINK := "/permalink.php"

  predicate MarkerHere(pathname: string, i: nat) {
    MatchesAt(pathname, i, "/posts/") || MatchesAt(pathname, i, "/videos/") || MatchesAt(pathname, i, "/reel/")
  }

  // The filter's pattern: a marker between two slashes, in any letter case.
  predicate HasMarker(pathname: string) {
    exists i :: 0 <= i < |pathname| && MarkerHere(pathname, i)
  }

  function NonEmpty(parts: seq<string>): (r: seq<string>)
    ensures forall i :: 0 <= i < |r| ==> r[i] != ""
    ensures forall p :: p in r <==> p in parts && p != ""
  {
    if parts == [] then []
    else
      assert parts == [parts[0]] + parts[1..];
      (if parts[0] == "" then [] else [parts[0]]) + NonEmpty(parts[1..])
  }

  function Segments(pathname: string): seq<string> {
    NonEmpty(Split(pathname, '/'))
  }

  // The parts of the URL kept, if it is; the parameters survive only on a
  // permalink that has both.
  function FacebookPostUrl(raw: RawUrl): Option<UrlParts> {
    if !raw.ownHost || (raw.pathname != PERMALINK && !HasMarker(raw.pathname)) then None
    else
      var both := raw.storyId.GetOr("") != "" && raw.ownerId.GetOr("") != "";
      Some(UrlParts(if both && Segments(raw.pathname) == ["permalink.php"] then raw.storyId else None,
                    Segments(raw.pathname)))
  }

  predicate AnyCaseMarker(segment: string) {
    EqualIgnoringCase(segment, "posts") || EqualIgnoringCase(segment, "videos") || EqualIgnoringCase(segment, "reel")
  }

  // ---- The pattern in terms of path segments ------------------------------

  lemma {:induction false} FirstPart(s: string)
    requires |Split(s, '/')| >= 2
    ensures Split(s, '/')[0] + "/" <= s
  {
    if s[0] != '/' {
      FirstPart(s[1..]);
      assert s == [s[0]] + s[1..];
    }
  }

  // An inner part of a split text stands between two slashes.
  lemma {:induction false} PartAt(s: string, k: nat) returns (i: nat)
    requires 0 < k < |Split(s, '/')| - 1
    ensures var part := "/" + Split(s, '/')[k] + "/"; i + |part| <= |s| && s[i..i + |part|] == part
  {
    var rest := s[1..];
    assert s == [s[0]] + rest;
    if s[0] == '/' && k == 1 {
      FirstPart(rest);
      i := 0;
    } else {
      var j := if s[0] == '/' then k - 1 else k;
      assert Split(s, '/')[k] == Split(rest, '/')[j];
      var at := PartAt(rest, j);
      var n := |Split(rest, '/')[j]| + 2;
      i := at + 1;
      assert s[i..i + n] == rest[at..at + n];
    }
  }

  predicate Word(m: string) {
    m == "posts" || m == "videos" || m == "reel"
  }

  lemma SlashFixed(c: char)
    ensures Lower(c) == '/' <==> c == '/'
  {
  }

  lemma MatchIsPart(s: string, i: nat, m: string) returns (k: nat)
    requires Word(m) && MatchesAt(s, i, "/" + m + "/")
    ensures 0 < k < |Split(s, '/')| - 1 && EqualIgnoringCase(Split(s, '/')[k], m)
  {
    hide Split;
    var n, needle := |m|, "/" + m + "/";
    var found := s[i..i + n + 2];
    var part, tail := found[1..n + 1], s[i + n + 2..];
    assert needle[0] == '/' && needle[n + 1] == '/' && needle[1..n + 1] == m;
    SlashFixed(found[0]);
    SlashFixed(found[n + 1]);
    assert found == "/" + part + "/";
    assert s == s[..i] + (['/'] + (part + (['/'] + tail)));
    forall j | 0 <= j < n ensures part[j] != '/' && Lower(part[j]) == Lower(m[j]) {
      assert needle[j + 1] == m[j];
      SlashFixed(part[j]);
      NoSlash(m, j);
    }
    SplitAppend(s[..i], part + (['/'] + tail), '/');
    SplitAppend(part, tail, '/');
    SplitNone(part, '/');
    k := |Split(s[..i], '/')|;
  }

  lemma NoSlash(m: string, j: nat)
    requires Word(m) && j < |m|
    ensures Lower(m[j]) != '/'
  {
  }

  lemma PartMatches(s: string, k: nat, m: string) returns (i: nat)
    requires 0 < k < |Split(s, '/')| - 1 && EqualIgnoringCase(Split(s, '/')[k], m)
    ensures i < |s| && MatchesAt(s, i, "/" + m + "/")
  {
    hide Split;
    i := PartAt(s, k);
    var part, needle := "/" + Split(s, '/')[k] + "/", "/" + m + "/";
    assert forall j :: 0 <= j < |m| ==> part[j + 1] == Split(s, '/')[k][j] && needle[j + 1] == m[j];
  }

  // The pattern matches exactly when some part between two slashes is a marker,
  // in any letter case.
  lemma {:induction false} HasMarkerIff(pathname: string)
    ensures HasMarker(pathname) <==>
      exists k :: 0 < k < |Split(pathname, '/')| - 1 && AnyCaseMarker(Split(pathname, '/')[k])
  {
    hide Split, MatchesAt, EqualIgnoringCase;
    if HasMarker(pathname) {
      var i :| 0 <= i < |pathname| && MarkerHere(pathname, i);
      var m := if MatchesAt(pathname, i, "/posts/") then "posts"
               else if MatchesAt(pathname, i, "/videos/") then "videos" else "reel";
      assert "/" + "posts" + "/" == "/posts/" && "/" + "videos" + "/" == "/videos/" && "/" + "reel" + "/" == "/reel/";
      var k := MatchIsPart(pathname, i, m);
      assert AnyCaseMarker(Split(pathname, '/')[k]);
    }
    if k :| 0 < k < |Split(pathname, '/')| - 1 && AnyCaseMarker(Split(pathname, '/')[k]) {
      var part := Split(pathname, '/')[k];
      var m := if EqualIgnoringCase(part, "posts") then "posts"
               else if EqualIgnoringCase(part, "videos") then "videos" else "reel";
      assert "/" + "posts" + "/" == "/posts/" && "/" + "videos" + "/" == "/videos/" && "/" + "reel" + "/" == "/reel/";
      var i := PartMatches(pathname, k, m);
      assert MarkerHere(pathname, i);
    }
  }

  // A URL is kept exactly when its host is Facebook's and its path is the
  // permalink's or has a marker between two slashes.
  lemma {:induction false} KeptIff(raw: RawUrl)
    ensures FacebookPostUrl(raw).Some? <==>
      && raw.ownHost
      && (raw.pathname == "/permalink.php"
          || exists k :: 0 < k < |Split(raw.pathname, '/')| - 1 && AnyCaseMarker(Split(raw.pathname, '/')[k]))
  {
    hide HasMarker, Split, AnyCaseMarker, Segments;
    HasMarkerIff(raw.pathname);
  }

  // ---- Kept URLs without a locator ----------------------------------------

  // Nothing follows the marker, or its letters are not all small.
  predicate LostMarker(segments: seq<string>, k: nat)
    requires k < |segments|
  {
    k == |segments| - 1 || !IsMarker(segments[k])
  }

  // A permalink without both parameters, or a path whose markers are all lost.
  predicate NoLocator(raw: RawUrl) {
    if raw.pathname == PERMALINK then raw.storyId.GetOr("") == "" || raw.ownerId.GetOr("") == ""
    else
      var segments := Segments(raw.pathname);
      forall k :: 0 <= k < |segments| && AnyCaseMarker(segments[k]) ==> LostMarker(segments, k)
  }

  // Exactly these of the URLs kept have the empty locator; any other path kept
  // has at least one marker.
  lemma {:induction false} KeptLocatorEmptyIff(raw: RawUrl)
    requires FacebookPostUrl(raw).Some?
    ensures PostLocator(FacebookPostUrl(raw).value) == "" <==> NoLocator(raw)
    ensures raw.pathname != PERMALINK ==>
      exists k :: 0 <= k < |Segments(raw.pathname)| && AnyCaseMarker(Segments(raw.pathname)[k])
  {
    var parts := FacebookPostUrl(raw).value;
    LocatorEmptyIff(parts);
    if raw.pathname == PERMALINK {
      PermalinkSegments();
    } else {
      hide HasMarker, Split, AfterMarker;
      MarkerSegment(raw.pathname);
      var k :| 0 <= k < |parts.segments| && AnyCaseMarker(parts.segments[k]);
      assert !EqualIgnoringCase("permalink.php", "posts") && !EqualIgnoringCase("permalink.php", "videos")
        && !EqualIgnoringCase("permalink.php", "reel");
      assert parts.storyId.None?;
      assert forall s :: IsMarker(s) ==> AnyCaseMarker(s);
    }
  }

  lemma MarkerSegment(pathname: string)
    requires HasMarker(pathname)
    ensures exists k :: 0 <= k < |Segments(pathname)| && AnyCaseMarker(Segments(pathname)[k])
  {
    hide HasMarker, Split;
    HasMarkerIff(pathname);
    var parts := Split(pathname, '/');
    var k :| 0 < k < |parts| - 1 && AnyCaseMarker(parts[k]);
    assert parts[k] in parts && parts[k] != "";
    assert parts[k] in Segments(pathname);
  }

  lemma PermalinkSegments()
    ensures Segments(PERMALINK) == ["permalink.php"]
  {
    hide Split, NonEmpty;
    assert PERMALINK == "" + (['/'] + "permalink.php");
    SplitAppend("", "permalink.php", '/');
    SplitNone("permalink.php", '/');
    SplitNone("", '/');
    assert [""] + ["permalink.php"] == ["", "permalink.php"];
    OnlySecond("permalink.php");
  }

  lemma OnlySecond(part: string)
    requires part != ""
    ensures NonEmpty(["", part]) == [part]
  {
    assert ["", part][1..] == [part] && [part][1..] == [];
    assert NonEmpty([part][1..]) == [];
    assert NonEmpty([part]) == [part];
  }

  // ---- Posts from signals -------------------------------------------------

  // What a scope of a response holds: candidate ids, kept URLs, creation times in
  // seconds, texts, each in order of occurrence.
  datatype Signals = Signals(postIds: seq<string>, urls: seq<string>, timestamps: seq<int>, texts: seq<string>)

  // The URL parser, the URL of a post of the source page, whether a URL names the
  // source page, and whether the signals or a URL do.
  datatype Source = Source(
    parse: string -> UrlParts,
    urlOf: string -> string,
    ownUrl: string -> bool,
    matches: (Signals, Option<string>) -> bool)

  function FirstMatching(source: Source, s: Signals, urls: seq<string>): (r: Option<string>)
    ensures r.Some? ==> r.value in urls && source.matches(s, r)
    ensures r.None? <==> forall u :: u in urls ==> !source.matches(s, Some(u))
  {
    if urls == [] then None
    else
      assert urls == [urls[0]] + urls[1..];
      if source.matches(s, Some(urls[0])) then Some(urls[0]) else FirstMatching(source, s, urls[1..])
  }

  function Latest(times: seq<int>): Option<int> {
    if times == [] then None
    else
      match Latest(times[..|times| - 1])
      case None => Some(times[|times| - 1])
      case Some(t) => Some(if times[|times| - 1] > t then times[|times| - 1] else t)
  }

  // The first of the longest texts.
  function Longest(texts: seq<string>): Option<string> {
    if texts == [] then None
    else
      match Longest(texts[..|texts| - 1])
      case None => Some(texts[|texts| - 1])
      case Some(t) => Some(if |texts[|texts| - 1]| > |t| then texts[|texts| - 1] else t)
  }

  function Candidates(postIds: seq<string>, locator: Option<string>): (r: seq<Option<string>>)
    ensures |r| == |postIds| + 1 && r[|postIds|] == locator
    ensures forall i :: 0 <= i < |postIds| ==> r[i] == Some(postIds[i])
  {
    seq(|postIds|, i requires 0 <= i < |postIds| => Some(postIds[i])) + [locator]
  }

  function UrlFor(source: Source, matching: Option<string>, locator: string, id: Option<string>): Option<string> {
    if matching.Some? && source.ownUrl(matching.value) then matching
    else if locator != "" then Some(source.urlOf(locator))
    else if id.Some? then Some(source.urlOf(id.value))
    else None
  }

  function PostFromSignals(source: Source, s: Signals): Option<Post> {
    var matching := FirstMatching(source, s, s.urls);
    var located := if matching.Some? then Some(PostLocator(source.parse(matching.value))) else None;
    var id := PreferredExternalPostId(Candidates(s.postIds, located));
    if !source.matches(s, matching) then None
    else
      var url := UrlFor(source, matching, located.GetOr(""), id);
      if url.GetOr("") == "" then None
      else
        var time := Latest(s.timestamps);
        Some(Post(url.value, Longest(s.texts), if time.Some? then Some(1000 * time.value) else None, id))
  }

  // The first of the URLs that matches.
  lemma {:induction false} FirstMatchingIs(source: Source, s: Signals, urls: seq<string>, i: nat)
    requires i < |urls| && source.matches(s, Some(urls[i]))
    requires forall j :: 0 <= j < i ==> !source.matches(s, Some(urls[j]))
    ensures FirstMatching(source, s, urls) == Some(urls[i])
  {
    if i > 0 { FirstMatchingIs(source, s, urls[1..], i - 1); }
  }

  lemma {:induction false} LatestIs(times: seq<int>)
    ensures times == [] <==> Latest(times).None?
    ensures times != [] ==> Latest(times).value in times && forall t :: t in times ==> t <= Latest(times).value
  {
    if times != [] {
      var last := |times| - 1;
      LatestIs(times[..last]);
      assert times == times[..last] + [times[last]];
    }
  }

  lemma {:induction false} LongestIs(texts: seq<string>) returns (i: nat)
    ensures texts == [] <==> Longest(texts).None?
    ensures texts != [] ==>
      && i < |texts| && Longest(texts) == Some(texts[i])
      && (forall j :: 0 <= j < |texts| ==> |texts[j]| <= |texts[i]|)
      && (forall j :: 0 <= j < i ==> |texts[j]| < |texts[i]|)
  {
    i := 0;
    if texts != [] {
      var last := |texts| - 1;
      i := LongestIs(texts[..last]);
      if last == 0 || |texts[last]| > |texts[i]| { i := last; }
    }
  }

  // A post has the latest of the times, the first of the longest texts, and the
  // URL that matches if it is of the source page itself, else one built from its
  // locator, else one built from the id.
  lemma {:induction false} PostIs(source: Source, s: Signals)
    requires PostFromSignals(source, s).Some?
    ensures var p, matching := PostFromSignals(source, s).value, FirstMatching(source, s, s.urls);
      && (s.timestamps == [] ==> p.publishedAt.None?)
      && (s.timestamps != [] ==> exists t :: t in s.timestamps && p.publishedAt == Some(1000 * t)
                                   && forall u :: u in s.timestamps ==> u <= t)
      && (p.text.None? <==> s.texts == [])
      && (p.text.Some? ==> p.text.value in s.texts && forall t :: t in s.texts ==> |t| <= |p.text.value|)
      && (matching.Some? && source.ownUrl(matching.value) ==> p.url == matching.value)
      && (matching.Some? && !source.ownUrl(matching.value) && PostLocator(source.parse(matching.value)) != "" ==>
            p.url == source.urlOf(PostLocator(source.parse(matching.value))))
      && (matching.None? || (!source.ownUrl(matching.value) && PostLocator(source.parse(matching.value)) == "") ==>
            p.externalPostId.Some? && p.url == source.urlOf(p.externalPostId.value))
  {
    hide PreferredExternalPostId, Longest, Latest, PostLocator, FirstMatching;
    LatestIs(s.timestamps);
    var i := LongestIs(s.texts);
  }

  // A post has an id exactly when one of its candidates is plausible, and then a
  // plausible one; a post without one is at a kept URL, or at a URL built from
  // the locator of one, and that locator is not plausible.
  lemma {:induction false} PostIdIff(source: Source, s: Signals)
    requires PostFromSignals(source, s).Some?
    ensures var p, matching := PostFromSignals(source, s).value, FirstMatching(source, s, s.urls);
      && GoodId(p)
      && (p.externalPostId.None? <==>
            && (forall i :: 0 <= i < |s.postIds| ==> !Plausible(s.postIds[i]))
            && (matching.Some? ==> !Plausible(PostLocator(source.parse(matching.value)))))
      && (p.externalPostId.None? ==>
            && matching.Some?
            && (p.url == matching.value || p.url == source.urlOf(PostLocator(source.parse(matching.value)))))
  {
    hide Plausible, PreferredExternalPostId, Longest, Latest, PostLocator;
    var matching := FirstMatching(source, s, s.urls);
    var located := if matching.Some? then Some(PostLocator(source.parse(matching.value))) else None;
    var values := Candidates(s.postIds, located);
    var i := PreferredIs(values);
    assert values[|s.postIds|] == located;
    assert IsPlausible(located) <==> located.Some? && Plausible(located.value);
    forall k | 0 <= k < |s.postIds| ensures IsPlausible(values[k]) <==> Plausible(s.postIds[k]) {
    }
  }

  // ---- Two posts that become one ------------------------------------------

  // A post without an id at a kept URL without a locator becomes one with exactly
  // those whose kept URL has no locator either, whatever the two URLs are.
  lemma {:induction false} NoLocatorCollapseIff(parse: string -> UrlParts, a: Post, b: Post, rawA: RawUrl, rawB: RawUrl)
    requires a.externalPostId.None? && b.externalPostId.None?
    requires FacebookPostUrl(rawA) == Some(parse(a.url)) && FacebookPostUrl(rawB) == Some(parse(b.url))
    requires NoLocator(rawA)
    ensures |Merge(Located(parse), [a, b])| == 1 <==> NoLocator(rawB)
  {
    hide Merge, FacebookPostUrl, NoLocator, PostLocator;
    KeptLocatorEmptyIff(rawA);
    KeptLocatorEmptyIff(rawB);
    LocatorsCollapse(parse, a, b);
  }

  // A scope with nothing but one URL of the source page.
  function OnlyUrl(url: string): Signals {
    Signals([], [url], [], [])
  }

  lemma OnlyUrlPost(source: Source, url: string)
    requires url != "" && source.ownUrl(url) && source.matches(OnlyUrl(url), Some(url))
    requires !Plausible(PostLocator(source.parse(url)))
    ensures PostFromSignals(source, OnlyUrl(url)) == Some(Post(url, None, None, None))
  {
    hide Plausible, PreferredExternalPostId, PostLocator;
    var located := Some(PostLocator(source.parse(url)));
    assert FirstMatching(source, OnlyUrl(url), [url]) == Some(url);
    var i := PreferredIs(Candidates([], located));
    assert Candidates([], located)[0] == located;
    assert !IsPlausible(located);
  }

  const VIDEOS := RawUrl(true, "/page/videos/", None, None)
  const REEL := RawUrl(true, "/page/reel/", None, None)

  lemma TwoSegments(a: string, b: string)
    requires a != "" && b != "" && '/' !in a && '/' !in b
    ensures Segments("/" + a + "/" + b + "/") == [a, b]
  {
    hide Split;
    var path := "/" + a + "/" + b + "/";
    assert path == "" + (['/'] + (a + (['/'] + (b + (['/'] + "")))));
    SplitAppend("", a + (['/'] + (b + (['/'] + ""))), '/');
    SplitAppend(a, b + (['/'] + ""), '/');
    SplitAppend(b, "", '/');
    SplitNone("", '/');
    SplitNone(a, '/');
    SplitNone(b, '/');
    assert Split(path, '/') == ["", a, b, ""];
    Inner(a, b);
  }

  lemma Inner(a: string, b: string)
    requires a != "" && b != ""
    ensures NonEmpty(["", a, b, ""]) == [a, b]
  {
    hide NonEmpty;
    NonEmptyStep(["", a, b, ""]);
    NonEmptyStep([a, b, ""]);
    NonEmptyStep([b, ""]);
    NonEmptyStep([""]);
    assert ["", a, b, ""][1..] == [a, b, ""] && [a, b, ""][1..] == [b, ""] && [b, ""][1..] == [""] && [""][1..] == [];
    NoneLeft();
    assert [a] + [b] == [a, b];
  }

  lemma NonEmptyStep(parts: seq<string>)
    requires parts != []
    ensures NonEmpty(parts) == (if parts[0] == "" then [] else [parts[0]]) + NonEmpty(parts[1..])
  {
  }

  lemma NoneLeft()
    ensures NonEmpty([]) == []
  {
  }

  // The agent keeps a page's video and reel overviews, neither has a locator, and
  // their posts, made without an id, become one. A photo's URL it does not keep.
  lemma {:induction false} OverviewsCollapse(source: Source, one: string, two: string)
    requires FacebookPostUrl(VIDEOS) == Some(source.parse(one)) && FacebookPostUrl(REEL) == Some(source.parse(two))
    requires one != "" && two != "" && source.ownUrl(one) && source.ownUrl(two)
    requires source.matches(OnlyUrl(one), Some(one)) && source.matches(OnlyUrl(two), Some(two))
    ensures FacebookPostUrl(VIDEOS) == Some(UrlParts(None, ["page", "videos"]))
    ensures FacebookPostUrl(REEL) == Some(UrlParts(None, ["page", "reel"]))
    ensures one != two
    ensures var posts := [PostFromSignals(source, OnlyUrl(one)), PostFromSignals(source, OnlyUrl(two))];
      && posts == [Some(Post(one, None, None, None)), Some(Post(two, None, None, None))]
      && |Merge(Located(source.parse), [posts[0].value, posts[1].value])| == 1
  {
    hide Merge, Split, NonEmpty, PostFromSignals, Plausible, Segments, HasMarker;
    assert "/" + "page" + "/" + "videos" + "/" == "/page/videos/" && "/" + "page" + "/" + "reel" + "/" == "/page/reel/";
    TwoSegments("page", "videos");
    TwoSegments("page", "reel");
    assert !IsMarker("page");
    LocatorEmptyIff(UrlParts(None, ["page", "videos"]));
    LocatorEmptyIff(UrlParts(None, ["page", "reel"]));
    EmptyImplausible();
    OnlyUrlPost(source, one);
    OnlyUrlPost(source, two);
    assert ["page", "videos"][1] != ["page", "reel"][1];
    LocatorsCollapse(source.parse, Post(one, None, None, None), Post(two, None, None, None));
  }

  lemma EmptyImplausible()
    ensures !Plausible("")
  {
  }

  lemma {:induction false} PhotoNotKept()
    ensures FacebookPostUrl(RawUrl(true, "/page/photos/1", None, None)) == None
  {
    hide Split, NonEmpty;
    var path := "/page/photos/1";
    if HasMarker(path) {
      HasMarkerIff(path);
      hide HasMarker;
      assert path == "" + (['/'] + ("page" + (['/'] + ("photos" + (['/'] + "1")))));
      SplitAppend("", "page" + (['/'] + ("photos" + (['/'] + "1"))), '/');
      SplitAppend("page", "photos" + (['/'] + "1"), '/');
      SplitAppend("photos", "1", '/');
      SplitNone("", '/');
      SplitNone("page", '/');
      SplitNone("photos", '/');
      SplitNone("1", '/');
      assert Split(path, '/') == ["", "page", "photos", "1"];
      var k :| 0 < k < 3 && AnyCaseMarker(["", "page", "photos", "1"][k]);
      NotMarkers();
    }
  }

  lemma NotMarkers()
    ensures !AnyCaseMarker("page") && !AnyCaseMarker("photos")
  {
    assert Lower("page"[0]) == 'p' && Lower("photos"[0]) == 'p';
    assert Lower("reel"[0]) == 'r' && Lower("videos"[0]) == 'v';
    assert |"page"| == 4 && |"photos"| == 6 && |"posts"| == 5;
  }

  // An id is plausible exactly when it is eight digits or more, or `pfbid` in any
  // letter case and then letters and digits.
  lemma {:induction false} PlausibleIs(id: string)
    ensures Plausible(id) <==>
      || (|id| >= 8 && forall i :: 0 <= i < |id| ==> '0' <= id[i] <= '9')
      || (|id| >= 6 && EqualIgnoringCase(id[..5], "pfbid")
          && forall i :: 5 <= i < |id| ==> '0' <= id[i] <= '9' || 'a' <= Lower(id[i]) <= 'z')
  {
    if |id| >= 6 {
      var word := "pfbid";
      assert Lower(word[0]) == 'p' && Lower(word[1]) == 'f' && Lower(word[2]) == 'b' && Lower(word[3]) == 'i'
        && Lower(word[4]) == 'd' && |word| == 5;
      assert forall i :: 0 <= i < 5 ==> id[..5][i] == id[i];
      assert forall i :: 5 <= i < |id| ==> (AlphaNumeric(id[i]) <==> '0' <= id[i] <= '9' || 'a' <= Lower(id[i]) <= 'z');
    }
  }
}
