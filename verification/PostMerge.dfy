// Merging the posts captured from GraphQL responses: one post per key, the
// newest first. The merge is written for any locator that may or may not give
// an id for a URL; `Located` is the one in use. A publication time is the
// instant its ISO text denotes.
module PostMerge {
  import opened Prelude

  datatype Post = Post(url: string, text: Option<string>, publishedAt: Option<int>, externalPostId: Option<string>)

  type Locator = string -> Option<string>

  // ---- Locators -----------------------------------------------------------

  // What postLocator reads of a parsed URL: the `story_fbid` parameter and the
  // non-empty path segments.
  datatype UrlParts = UrlParts(storyId: Option<string>, segments: seq<string>)

  predicate IsMarker(segment: string) {
    segment == "posts" || segment == "videos" || segment == "reel"
  }

  // What follows the first marker, if anything does.
  function AfterMarker(segments: seq<string>): string {
    if segments == [] then ""
    else if !IsMarker(segments[0]) then AfterMarker(segments[1..])
    else if |segments| > 1 then segments[1] else ""
  }

  function PostLocator(parts: UrlParts): string {
    if parts.storyId.Some? && parts.storyId.value != "" then parts.storyId.value
    else AfterMarker(parts.segments)
  }

  // The locator in use: a text for every URL, never null.
  function Located(parse: string -> UrlParts): Locator {
    url => Some(PostLocator(parse(url)))
  }

  // ---- Post ids -----------------------------------------------------------

  predicate Digits(s: string) {
    forall i :: 0 <= i < |s| ==> '0' <= s[i] <= '9'
  }

  predicate Numeric(id: string) {
    |id| >= 8 && Digits(id)
  }

  predicate AlphaNumeric(c: char) {
    '0' <= c <= '9' || 'a' <= c <= 'z' || 'A' <= c <= 'Z'
  }

  predicate Pfbid(id: string) {
    && |id| > 5 && id[0] in "pP" && id[1] in "fF" && id[2] in "bB" && id[3] in "iI" && id[4] in "dD"
    && forall i :: 5 <= i < |id| ==> AlphaNumeric(id[i])
  }

  predicate Plausible(id: string) {
    Numeric(id) || Pfbid(id)
  }

  function PlausibleOf(values: seq<Option<string>>): seq<string> {
    if values == [] then []
    else (if values[0].Some? && Plausible(values[0].value) then [values[0].value] else []) + PlausibleOf(values[1..])
  }

  function FirstNumeric(ids: seq<string>): Option<string> {
    if ids == [] then None else if Numeric(ids[0]) then Some(ids[0]) else FirstNumeric(ids[1..])
  }

  function PreferredExternalPostId(values: seq<Option<string>>): Option<string> {
    var plausible := PlausibleOf(values);
    if FirstNumeric(plausible).Some? then FirstNumeric(plausible)
    else if plausible == [] then None else Some(plausible[0])
  }

  lemma {:induction false} PlausibleOfIs(values: seq<Option<string>>)
    ensures forall id :: id in PlausibleOf(values) <==> Some(id) in values && Plausible(id)
  {
    hide Plausible;
    if values != [] {
      PlausibleOfIs(values[1..]);
      assert values == [values[0]] + values[1..];
    }
  }

  lemma {:induction false} FirstNumericIs(ids: seq<string>)
    ensures match FirstNumeric(ids)
      case None => forall id :: id in ids ==> !Numeric(id)
      case Some(n) => n in ids && Numeric(n)
  {
    if ids != [] {
      FirstNumericIs(ids[1..]);
      assert ids == [ids[0]] + ids[1..];
    }
  }

  predicate IsPlausible(value: Option<string>) {
    value.Some? && Plausible(value.value)
  }

  predicate IsNumeric(value: Option<string>) {
    value.Some? && Numeric(value.value)
  }

  lemma {:induction false} FirstPlausible(values: seq<Option<string>>) returns (i: nat)
    requires PlausibleOf(values) != []
    ensures i < |values| && values[i] == Some(PlausibleOf(values)[0]) && IsPlausible(values[i])
    ensures forall j :: 0 <= j < i ==> !IsPlausible(values[j])
  {
    hide Plausible;
    if IsPlausible(values[0]) {
      i := 0;
    } else {
      i := FirstPlausible(values[1..]);
      i := i + 1;
    }
  }

  lemma {:induction false} FirstNumericOf(values: seq<Option<string>>) returns (i: nat)
    requires FirstNumeric(PlausibleOf(values)).Some?
    ensures i < |values| && values[i] == FirstNumeric(PlausibleOf(values)) && IsNumeric(values[i])
    ensures forall j :: 0 <= j < i ==> !IsNumeric(values[j])
  {
    assert IsNumeric(values[0]) ==> IsPlausible(values[0]);
    hide Plausible, Numeric;
    var kept, rest := if IsPlausible(values[0]) then [values[0].value] else [], PlausibleOf(values[1..]);
    assert PlausibleOf(values) == kept + rest;
    if IsNumeric(values[0]) {
      i := 0;
      assert (kept + rest)[0] == values[0].value;
    } else {
      assert (kept + rest)[|kept|..] == rest;
      assert kept == [] ==> kept + rest == rest;
      i := FirstNumericOf(values[1..]);
      i := i + 1;
    }
  }

  // The preferred id is the first numeric one of those given, else the first
  // plausible one, else none.
  lemma {:induction false} PreferredIs(values: seq<Option<string>>) returns (i: nat)
    ensures PreferredExternalPostId(values).None? <==> forall k :: 0 <= k < |values| ==> !IsPlausible(values[k])
    ensures PreferredExternalPostId(values).Some? ==>
      && i < |values| && values[i] == PreferredExternalPostId(values) && IsPlausible(values[i])
      && (IsNumeric(values[i]) ==> forall j :: 0 <= j < i ==> !IsNumeric(values[j]))
      && (!IsNumeric(values[i]) ==>
            (forall k :: 0 <= k < |values| ==> !IsNumeric(values[k]))
            && forall j :: 0 <= j < i ==> !IsPlausible(values[j]))
  {
    PlausibleOfIs(values);
    FirstNumericIs(PlausibleOf(values));
    forall k | 0 <= k < |values| && IsNumeric(values[k]) ensures Plausible(values[k].value) {
      NumericPlausible(values[k].value);
    }
    hide Plausible, Numeric;
    i := 0;
    if FirstNumeric(PlausibleOf(values)).Some? {
      i := FirstNumericOf(values);
    } else if PlausibleOf(values) != [] {
      i := FirstPlausible(values);
    }
    assert forall k :: 0 <= k < |values| && IsPlausible(values[k]) ==> values[k].value in PlausibleOf(values);
  }

  lemma NumericPlausible(id: string)
    requires Numeric(id)
    ensures Plausible(id)
  {
  }

  function Preferred2(a: Option<string>, b: Option<string>): Option<string> {
    PreferredExternalPostId([a, b])
  }

  function Kept(a: Option<string>): Option<string> {
    if a.Some? && Plausible(a.value) then a else None
  }

  lemma PreferredOfTwo(a: Option<string>, b: Option<string>)
    ensures Preferred2(a, b) ==
      if Kept(a).None? then Kept(b)
      else if Kept(b).None? || Numeric(a.value) || !Numeric(b.value) then a
      else b
  {
    hide Plausible, Numeric;
    assert [a, b][1..] == [b] && [b][1..] == [];
    assert PlausibleOf([b]) == (if Kept(b).Some? then [b.value] else []) + PlausibleOf([]);
    var ids := PlausibleOf([a, b]);
    assert ids == (if Kept(a).Some? then [a.value] else []) + (if Kept(b).Some? then [b.value] else []);
    assert FirstNumeric([]).None?;
    if |ids| >= 1 { OneNumeric(ids[|ids| - 1]); }
    if |ids| == 2 { assert ids[1..] == [b.value]; }
    if |ids| == 1 { assert ids == [ids[0]]; }
  }

  lemma OneNumeric(id: string)
    ensures FirstNumeric([id]) == if Numeric(id) then Some(id) else None
  {
  }

  // ---- Merging two posts with one key -------------------------------------

  // A missing time is before every other.
  predicate NotEarlier(a: Option<int>, b: Option<int>) {
    b.None? || (a.Some? && a.value >= b.value)
  }

  function Length(text: Option<string>): nat {
    if text.Some? then |text.value| else 0
  }

  function Combine(existing: Post, post: Post): Post {
    Post(
      if NotEarlier(post.publishedAt, existing.publishedAt) then post.url else existing.url,
      if Length(post.text) > Length(existing.text) then post.text else existing.text,
      if NotEarlier(post.publishedAt, existing.publishedAt) then post.publishedAt else existing.publishedAt,
      Preferred2(existing.externalPostId, post.externalPostId))
  }

  // Ids as postFromSignals makes them.
  predicate GoodId(p: Post) {
    p.externalPostId.Some? ==> Plausible(p.externalPostId.value)
  }

  predicate GoodIds(posts: seq<Post>) {
    forall i :: 0 <= i < |posts| ==> GoodId(posts[i])
  }

  // `externalPostId ?? postLocator(url) ?? url`.
  function Key(locate: Locator, p: Post): string {
    match p.externalPostId
    case Some(id) => id
    case None => match locate(p.url) case Some(located) => located case None => p.url
  }

  // A merged post keeps its key.
  lemma {:induction false} CombineKeepsKey(locate: Locator, a: Post, b: Post)
    requires GoodId(a) && GoodId(b) && Key(locate, a) == Key(locate, b)
    ensures GoodId(Combine(a, b)) && Key(locate, Combine(a, b)) == Key(locate, a)
  {
    hide Plausible, Numeric, PreferredExternalPostId, NotEarlier;
    PreferredOfTwo(a.externalPostId, b.externalPostId);
  }

  lemma PreferredAssociates(a: Option<string>, b: Option<string>, c: Option<string>)
    ensures Preferred2(Preferred2(a, b), c) == Preferred2(a, Preferred2(b, c))
  {
    PreferredOfTwo(a, b);
    PreferredOfTwo(b, c);
    PreferredOfTwo(Preferred2(a, b), c);
    PreferredOfTwo(a, Preferred2(b, c));
    hide Plausible, Numeric, PreferredExternalPostId, Preferred2;
  }

  lemma {:induction false} CombineAssociates(a: Post, b: Post, c: Post)
    ensures Combine(Combine(a, b), c) == Combine(a, Combine(b, c))
  {
    hide Preferred2;
    PreferredAssociates(a.externalPostId, b.externalPostId, c.externalPostId);
  }

  // ---- The fold by key ----------------------------------------------------

  function Add(locate: Locator, m: map<string, Post>, p: Post): map<string, Post> {
    var key := Key(locate, p);
    if key in m then m[key := Combine(m[key], p)] else m[key := p]
  }

  function Fold(locate: Locator, m: map<string, Post>, posts: seq<Post>): map<string, Post> {
    if posts == [] then m
    else Add(locate, Fold(locate, m, posts[..|posts| - 1]), posts[|posts| - 1])
  }

  // Keys in the order in which they first occur.
  function Order(locate: Locator, posts: seq<Post>): seq<string> {
    if posts == [] then []
    else
      var before, key := Order(locate, posts[..|posts| - 1]), Key(locate, posts[|posts| - 1]);
      if key in before then before else before + [key]
  }

  predicate Distinct<T(==)>(s: seq<T>) {
    forall i, j :: 0 <= i < j < |s| ==> s[i] != s[j]
  }

  lemma {:induction false} OrderIsKeys(locate: Locator, posts: seq<Post>)
    ensures Distinct(Order(locate, posts))
    ensures forall k :: k in Order(locate, posts) <==> k in Fold(locate, map[], posts)
  {
    hide Key, Combine;
    if posts != [] { OrderIsKeys(locate, posts[..|posts| - 1]); }
  }

  function Values(m: map<string, Post>, order: seq<string>): (r: seq<Post>)
    requires forall k :: k in order ==> k in m
    ensures |r| == |order| && forall i :: 0 <= i < |r| ==> r[i] == m[order[i]]
  {
    seq(|order|, i requires 0 <= i < |order| => m[order[i]])
  }

  // ---- The stable sort, newest first --------------------------------------

  function Insert(sorted: seq<Post>, p: Post): seq<Post> {
    if sorted == [] then [p]
    else
      var last := |sorted| - 1;
      if NotEarlier(sorted[last].publishedAt, p.publishedAt) then sorted + [p]
      else Insert(sorted[..last], p) + [sorted[last]]
  }

  function StableSort(posts: seq<Post>): seq<Post> {
    if posts == [] then [] else Insert(StableSort(posts[..|posts| - 1]), posts[|posts| - 1])
  }

  predicate NewestFirst(posts: seq<Post>) {
    forall i, j :: 0 <= i < j < |posts| ==> NotEarlier(posts[i].publishedAt, posts[j].publishedAt)
  }

  lemma {:induction false} InsertKeeps(sorted: seq<Post>, p: Post)
    ensures multiset(Insert(sorted, p)) == multiset(sorted) + multiset{p}
  {
    hide NotEarlier;
    if sorted != [] {
      var last := |sorted| - 1;
      assert sorted == sorted[..last] + [sorted[last]];
      InsertKeeps(sorted[..last], p);
    }
  }

  lemma {:induction false} InsertSorts(sorted: seq<Post>, p: Post)
    requires NewestFirst(sorted)
    ensures NewestFirst(Insert(sorted, p))
  {
    if sorted != [] {
      var last := |sorted| - 1;
      if !NotEarlier(sorted[last].publishedAt, p.publishedAt) {
        InsertSorts(sorted[..last], p);
        var r := Insert(sorted[..last], p);
        InsertKeeps(sorted[..last], p);
        forall i | 0 <= i < |r| ensures NotEarlier(r[i].publishedAt, sorted[last].publishedAt) {
          FromEither(sorted[..last], p, r[i], r);
        }
      }
    }
  }

  lemma FromEither(a: seq<Post>, p: Post, x: Post, r: seq<Post>)
    requires multiset(r) == multiset(a) + multiset{p} && x in r
    ensures x == p || x in a
  {
    assert x in multiset(r);
  }

  lemma {:induction false} SortSorts(posts: seq<Post>)
    ensures NewestFirst(StableSort(posts))
    ensures multiset(StableSort(posts)) == multiset(posts)
  {
    hide Insert, NewestFirst;
    if posts != [] {
      var last := |posts| - 1;
      SortSorts(posts[..last]);
      InsertSorts(StableSort(posts[..last]), posts[last]);
      InsertKeeps(StableSort(posts[..last]), posts[last]);
      assert posts == posts[..last] + [posts[last]];
    } else {
      assert NewestFirst([]) by { NothingToSort(); }
    }
  }

  lemma NothingToSort()
    ensures NewestFirst([])
  {
  }

  // The sort moves nothing that is already in place.
  lemma {:induction false} SortedStays(posts: seq<Post>)
    requires NewestFirst(posts)
    ensures StableSort(posts) == posts
  {
    if posts != [] {
      var last := |posts| - 1;
      SortedStays(posts[..last]);
      assert posts == posts[..last] + [posts[last]];
    }
  }

  function AtTime(posts: seq<Post>, time: Option<int>): seq<Post> {
    if posts == [] then []
    else
      var last := |posts| - 1;
      AtTime(posts[..last], time) + if posts[last].publishedAt == time then [posts[last]] else []
  }

  lemma {:induction false} InsertStable(sorted: seq<Post>, p: Post, time: Option<int>)
    ensures AtTime(Insert(sorted, p), time) == AtTime(sorted, time) + if p.publishedAt == time then [p] else []
  {
    if sorted != [] {
      var last := |sorted| - 1;
      if NotEarlier(sorted[last].publishedAt, p.publishedAt) {
        assert (sorted + [p])[..last + 1] == sorted;
      } else {
        var r := Insert(sorted[..last], p);
        assert (r + [sorted[last]])[..|r|] == r;
        InsertStable(sorted[..last], p, time);
      }
    } else {
      assert [p][..0] == [];
    }
  }

  // Posts of one time keep their order.
  lemma {:induction false} SortStable(posts: seq<Post>, time: Option<int>)
    ensures AtTime(StableSort(posts), time) == AtTime(posts, time)
  {
    hide Insert;
    if posts != [] {
      var last := |posts| - 1;
      SortStable(posts[..last], time);
      InsertStable(StableSort(posts[..last]), posts[last], time);
    }
  }

  // ---- The merge ----------------------------------------------------------

  function Merge(locate: Locator, posts: seq<Post>): seq<Post> {
    OrderIsKeys(locate, posts);
    StableSort(Values(Fold(locate, map[], posts), Order(locate, posts)))
  }

  method MergeGraphqlPosts(locate: Locator, posts: seq<Post>) returns (r: seq<Post>)
    ensures r == Merge(locate, posts)
  {
    hide Combine, Key, StableSort;
    var merged: map<string, Post> := map[];
    var keys: seq<string> := [];
    for i := 0 to |posts|
      invariant merged == Fold(locate, map[], posts[..i])
      invariant keys == Order(locate, posts[..i])
    {
      var post := posts[i];
      assert posts[..i + 1][..i] == posts[..i];
      OrderIsKeys(locate, posts[..i]);
      var key := Key(locate, post);
      if key !in merged {
        merged := merged[key := post];
        keys := keys + [key];
      } else {
        merged := merged[key := Combine(merged[key], post)];
      }
    }
    assert posts[..|posts|] == posts;
    OrderIsKeys(locate, posts);
    r := StableSort(Values(merged, keys));
  }
}
