// Incremental capture against one merge of everything captured.
module CaptureRuns {
  import opened Prelude
  import opened PostMerge

  predicate Keyed(locate: Locator, m: map<string, Post>) {
    forall k :: k in m ==> GoodId(m[k]) && Key(locate, m[k]) == k
  }

  predicate DistinctKeys(locate: Locator, posts: seq<Post>) {
    forall i, j :: 0 <= i < j < |posts| ==> Key(locate, posts[i]) != Key(locate, posts[j])
  }

  lemma AddKeyed(locate: Locator, m: map<string, Post>, p: Post)
    requires Keyed(locate, m) && GoodId(p)
    ensures Keyed(locate, Add(locate, m, p))
  {
    hide Key, Combine, GoodId;
    if Key(locate, p) in m { CombineKeepsKey(locate, m[Key(locate, p)], p); }
  }

  lemma {:induction false} FoldKeyed(locate: Locator, m: map<string, Post>, posts: seq<Post>)
    requires Keyed(locate, m) && GoodIds(posts)
    ensures Keyed(locate, Fold(locate, m, posts))
  {
    hide Keyed, Add;
    if posts != [] {
      var last := |posts| - 1;
      FoldKeyed(locate, m, posts[..last]);
      AddKeyed(locate, Fold(locate, m, posts[..last]), posts[last]);
    }
  }

  lemma {:induction false} FoldAppend(locate: Locator, m: map<string, Post>, a: seq<Post>, b: seq<Post>)
    ensures Fold(locate, m, a + b) == Fold(locate, Fold(locate, m, a), b)
  {
    hide Add;
    if b != [] {
      assert (a + b)[..|a + b| - 1] == a + b[..|b| - 1];
      FoldAppend(locate, m, a, b[..|b| - 1]);
    } else {
      assert a + b == a;
    }
  }

  // ---- A list with one post per key ---------------------------------------

  // The map holds exactly the posts of the list.
  ghost predicate Holds(locate: Locator, m: map<string, Post>, posts: seq<Post>) {
    && (forall i :: 0 <= i < |posts| ==> Key(locate, posts[i]) in m && m[Key(locate, posts[i])] == posts[i])
    && (forall k :: k in m ==> exists i :: 0 <= i < |posts| && Key(locate, posts[i]) == k)
  }

  lemma {:induction false} HoldsOneMore(locate: Locator, m: map<string, Post>, posts: seq<Post>)
    requires posts != [] && DistinctKeys(locate, posts) && Holds(locate, m, posts[..|posts| - 1])
    ensures Holds(locate, m[Key(locate, posts[|posts| - 1]) := posts[|posts| - 1]], posts)
    ensures Key(locate, posts[|posts| - 1]) !in m
  {
    hide Key;
    var last := |posts| - 1;
    forall k | k in m
      ensures k != Key(locate, posts[last]) && exists i :: 0 <= i < |posts| && Key(locate, posts[i]) == k
    {
      var i :| 0 <= i < last && Key(locate, posts[..last][i]) == k;
      assert Key(locate, posts[i]) == k;
    }
    forall i | 0 <= i < last ensures Key(locate, posts[i]) in m && m[Key(locate, posts[i])] == posts[i] {
      assert posts[i] == posts[..last][i];
    }
  }

  lemma {:induction false} FoldDistinct(locate: Locator, posts: seq<Post>)
    requires DistinctKeys(locate, posts)
    ensures Holds(locate, Fold(locate, map[], posts), posts)
  {
    if posts != [] {
      hide Key, Combine, Holds;
      FoldDistinct(locate, posts[..|posts| - 1]);
      HoldsOneMore(locate, Fold(locate, map[], posts[..|posts| - 1]), posts);
    }
  }

  // Such a list folds to the map whose values it lists.
  lemma FoldOfList(locate: Locator, posts: seq<Post>, m: map<string, Post>)
    requires DistinctKeys(locate, posts) && Keyed(locate, m)
    requires forall p :: p in posts <==> p in m.Values
    ensures Fold(locate, map[], posts) == m
  {
    hide Key, Fold, GoodId;
    FoldDistinct(locate, posts);
    var f := Fold(locate, map[], posts);
    forall k | k in m ensures k in f && f[k] == m[k] {
      assert m[k] in m.Values;
      assert m[k] in posts;
      var i :| 0 <= i < |posts| && posts[i] == m[k];
    }
    forall k | k in f ensures k in m {
      var i :| 0 <= i < |posts| && Key(locate, posts[i]) == k;
      assert posts[i] in posts;
      assert posts[i] in m.Values;
    }
  }

  lemma {:induction false} InsertDistinct(locate: Locator, sorted: seq<Post>, p: Post)
    requires DistinctKeys(locate, sorted)
    requires forall i :: 0 <= i < |sorted| ==> Key(locate, sorted[i]) != Key(locate, p)
    ensures DistinctKeys(locate, Insert(sorted, p))
  {
    hide Key, NotEarlier;
    if sorted != [] {
      var last := |sorted| - 1;
      if !NotEarlier(sorted[last].publishedAt, p.publishedAt) {
        InsertDistinct(locate, sorted[..last], p);
        InsertKeeps(sorted[..last], p);
        var r := Insert(sorted[..last], p);
        forall i | 0 <= i < |r| ensures Key(locate, r[i]) != Key(locate, sorted[last]) {
          FromEither(sorted[..last], p, r[i], r);
        }
      }
    }
  }

  lemma {:induction false} SortDistinct(locate: Locator, posts: seq<Post>)
    requires DistinctKeys(locate, posts)
    ensures DistinctKeys(locate, StableSort(posts))
  {
    hide Key, Insert;
    if posts != [] {
      var last := |posts| - 1;
      SortDistinct(locate, posts[..last]);
      var s := StableSort(posts[..last]);
      SortSorts(posts[..last]);
      forall i | 0 <= i < |s| ensures Key(locate, s[i]) != Key(locate, posts[last]) {
        assert s[i] in multiset(posts[..last]);
        var j :| 0 <= j < last && posts[..last][j] == s[i];
      }
      InsertDistinct(locate, s, posts[last]);
    }
  }

  // ---- What a merge lists -------------------------------------------------

  lemma ValuesDistinct(locate: Locator, m: map<string, Post>, order: seq<string>)
    requires Keyed(locate, m) && Distinct(order) && forall k :: k in order <==> k in m
    ensures DistinctKeys(locate, Values(m, order))
    ensures forall p :: p in Values(m, order) <==> p in m.Values
  {
  }

  // The merge of any posts is newest first, has one post per key, and keeps
  // what the posts fold to.
  lemma {:induction false} MergeMeaning(locate: Locator, posts: seq<Post>)
    requires GoodIds(posts)
    ensures NewestFirst(Merge(locate, posts)) && DistinctKeys(locate, Merge(locate, posts))
    ensures Fold(locate, map[], Merge(locate, posts)) == Fold(locate, map[], posts)
    ensures GoodIds(Merge(locate, posts))
  {
    hide Key, StableSort, NewestFirst, Fold, Order, DistinctKeys, Distinct, GoodId;
    var m, order := Fold(locate, map[], posts), Order(locate, posts);
    OrderIsKeys(locate, posts);
    assert Keyed(locate, m) by { FoldKeyed(locate, map[], posts); }
    ValuesDistinct(locate, m, order);
    var values := Values(m, order);
    SortSorts(values);
    SortDistinct(locate, values);
    var merged := Merge(locate, posts);
    forall p ensures p in merged <==> p in values {
      assert p in merged <==> p in multiset(merged);
      assert p in values <==> p in multiset(values);
    }
    FoldOfList(locate, merged, m);
    forall i | 0 <= i < |merged| ensures GoodId(merged[i]) {
      assert merged[i] in merged;
      assert merged[i] in m.Values;
    }
  }

  // Merging again changes nothing, not even the order.
  lemma {:induction false} MergeIdempotent(locate: Locator, posts: seq<Post>)
    requires GoodIds(posts)
    ensures Merge(locate, Merge(locate, posts)) == Merge(locate, posts)
  {
    hide Merge, StableSort, NewestFirst, DistinctKeys, Fold, Order, GoodIds;
    MergeMeaning(locate, posts);
    MergeOfMerged(locate, Merge(locate, posts));
  }

  lemma {:induction false} OrderOfDistinct(locate: Locator, posts: seq<Post>)
    requires DistinctKeys(locate, posts)
    ensures |Order(locate, posts)| == |posts|
    ensures forall i :: 0 <= i < |posts| ==> Order(locate, posts)[i] == Key(locate, posts[i])
  {
    hide Key;
    if posts != [] {
      var last := |posts| - 1;
      OrderOfDistinct(locate, posts[..last]);
    }
  }

  lemma MergeOfMerged(locate: Locator, posts: seq<Post>)
    requires NewestFirst(posts) && DistinctKeys(locate, posts)
    ensures Merge(locate, posts) == posts
  {
    hide Key, StableSort, NewestFirst, Fold, Order;
    OrderIsKeys(locate, posts);
    OrderOfDistinct(locate, posts);
    FoldDistinct(locate, posts);
    assert Values(Fold(locate, map[], posts), Order(locate, posts)) == posts;
    SortedStays(posts);
  }

  // ---- Merging batches that were merged before ----------------------------

  function Joined(m: map<string, Post>, n: map<string, Post>): map<string, Post> {
    map k | k in m.Keys + n.Keys ::
      if k !in n then m[k] else if k !in m then n[k] else Combine(m[k], n[k])
  }

  lemma AddJoined(locate: Locator, m: map<string, Post>, n: map<string, Post>, p: Post)
    ensures Add(locate, Joined(m, n), p) == Joined(m, Add(locate, n, p))
  {
    hide Key, Combine;
    var k := Key(locate, p);
    if k in m && k in n { CombineAssociates(m[k], n[k], p); }
  }

  lemma {:induction false} FoldJoined(locate: Locator, m: map<string, Post>, posts: seq<Post>)
    ensures Fold(locate, m, posts) == Joined(m, Fold(locate, map[], posts))
  {
    hide Add;
    if posts != [] {
      var last := |posts| - 1;
      FoldJoined(locate, m, posts[..last]);
      AddJoined(locate, m, Fold(locate, map[], posts[..last]), posts[last]);
    } else {
      JoinedNothing(m);
    }
  }

  lemma JoinedNothing(m: map<string, Post>)
    ensures Joined(m, map[]) == m
  {
  }

  // Merging a merge with a merged batch is merging everything.
  lemma {:induction false} IncrementalMerge(locate: Locator, a: seq<Post>, b: seq<Post>)
    requires GoodIds(a) && GoodIds(b)
    ensures Fold(locate, map[], Merge(locate, a) + Merge(locate, b)) == Fold(locate, map[], a + b)
  {
    hide Fold, Merge, Joined, NewestFirst, DistinctKeys, GoodIds;
    var m := Fold(locate, map[], a);
    MergeMeaning(locate, a);
    MergeMeaning(locate, b);
    FoldAppend(locate, map[], Merge(locate, a), Merge(locate, b));
    FoldAppend(locate, map[], a, b);
    FoldJoined(locate, m, Merge(locate, b));
    FoldJoined(locate, m, b);
  }

  // ---- What a merged post holds -------------------------------------------

  // The url and time are those of the latest post with the key, the last of
  // several that are equally late.
  ghost predicate LatestAt(locate: Locator, posts: seq<Post>, key: string, m: Post, i: nat) {
    && i < |posts| && Key(locate, posts[i]) == key
    && m.url == posts[i].url && m.publishedAt == posts[i].publishedAt
    && forall j :: 0 <= j < |posts| && Key(locate, posts[j]) == key ==>
      NotEarlier(m.publishedAt, posts[j].publishedAt)
      && (i < j ==> !NotEarlier(posts[j].publishedAt, m.publishedAt))
  }

  // The text is the longest one of the key, the first of several.
  ghost predicate LongestAt(locate: Locator, posts: seq<Post>, key: string, m: Post, i: nat) {
    && i < |posts| && Key(locate, posts[i]) == key && m.text == posts[i].text
    && forall j :: 0 <= j < |posts| && Key(locate, posts[j]) == key ==>
      Length(posts[j].text) <= Length(m.text)
      && (j < i ==> Length(posts[j].text) < Length(m.text))
  }

  lemma {:induction false} MergedLatest(locate: Locator, posts: seq<Post>, key: string) returns (i: nat)
    requires key in Fold(locate, map[], posts)
    ensures LatestAt(locate, posts, key, Fold(locate, map[], posts)[key], i)
  {
    hide Key, Preferred2, Length;
    var last := |posts| - 1;
    var m := Fold(locate, map[], posts[..last]);
    var p := posts[last];
    if key in m {
      i := MergedLatest(locate, posts[..last], key);
      if Key(locate, p) == key && NotEarlier(p.publishedAt, m[key].publishedAt) { i := last; }
    } else {
      i := last;
      FirstOfKey(locate, posts, key);
    }
  }

  lemma {:induction false} MergedLongest(locate: Locator, posts: seq<Post>, key: string) returns (i: nat)
    requires key in Fold(locate, map[], posts)
    ensures LongestAt(locate, posts, key, Fold(locate, map[], posts)[key], i)
  {
    hide Key, Preferred2, NotEarlier;
    var last := |posts| - 1;
    var m := Fold(locate, map[], posts[..last]);
    var p := posts[last];
    if key in m {
      i := MergedLongest(locate, posts[..last], key);
      if Key(locate, p) == key && Length(p.text) > Length(m[key].text) { i := last; }
    } else {
      i := last;
      FirstOfKey(locate, posts, key);
    }
  }

  lemma FirstOfKey(locate: Locator, posts: seq<Post>, key: string)
    requires posts != [] && key !in Fold(locate, map[], posts[..|posts| - 1])
    ensures forall j :: 0 <= j < |posts| - 1 ==> Key(locate, posts[j]) != key
  {
    hide Key, Fold;
    forall j | 0 <= j < |posts| - 1 ensures Key(locate, posts[j]) != key {
      FoldHolds(locate, posts[..|posts| - 1], j);
    }
  }

  lemma {:induction false} FoldHolds(locate: Locator, posts: seq<Post>, j: nat)
    requires j < |posts|
    ensures Key(locate, posts[j]) in Fold(locate, map[], posts)
  {
    hide Key, Combine;
    if j < |posts| - 1 { FoldHolds(locate, posts[..|posts| - 1], j); }
  }

  // ---- Which posts collapse -----------------------------------------------

  ghost function Keys(locate: Locator, posts: seq<Post>): set<string> {
    set p | p in posts :: Key(locate, p)
  }

  lemma KeysStep(locate: Locator, posts: seq<Post>)
    requires posts != []
    ensures Keys(locate, posts) == Keys(locate, posts[..|posts| - 1]) + {Key(locate, posts[|posts| - 1])}
  {
    hide Key;
    assert posts == posts[..|posts| - 1] + [posts[|posts| - 1]];
    forall k | k in Keys(locate, posts[..|posts| - 1]) + {Key(locate, posts[|posts| - 1])}
      ensures k in Keys(locate, posts)
    {
      if k == Key(locate, posts[|posts| - 1]) { assert posts[|posts| - 1] in posts; }
    }
  }

  lemma {:induction false} OrderSize(locate: Locator, posts: seq<Post>)
    ensures |Order(locate, posts)| == |Keys(locate, posts)|
    ensures forall k :: k in Order(locate, posts) <==> k in Keys(locate, posts)
  {
    hide Key, Keys;
    if posts != [] {
      OrderSize(locate, posts[..|posts| - 1]);
      KeysStep(locate, posts);
      OneMore(Order(locate, posts[..|posts| - 1]), Keys(locate, posts[..|posts| - 1]), Key(locate, posts[|posts| - 1]));
    } else {
      assert Keys(locate, posts) == {} by { NoKeys(locate); }
    }
  }

  lemma {:induction false} OneMore(order: seq<string>, keys: set<string>, key: string)
    requires |order| == |keys| && forall k :: k in order <==> k in keys
    ensures var next := if key in order then order else order + [key];
      |next| == |keys + {key}| && forall k :: k in next <==> k in keys + {key}
  {
    if key in order { assert keys + {key} == keys; }
  }

  lemma NoKeys(locate: Locator)
    ensures Keys(locate, []) == {}
  {
  }

  // A merge has as many posts as there are different keys.
  lemma {:induction false} MergeSize(locate: Locator, posts: seq<Post>)
    ensures |Merge(locate, posts)| == |Keys(locate, posts)|
  {
    hide Key, Keys, Fold, Order, StableSort;
    OrderIsKeys(locate, posts);
    OrderSize(locate, posts);
    var values := Values(Fold(locate, map[], posts), Order(locate, posts));
    SortSorts(values);
    assert |multiset(StableSort(values))| == |multiset(values)|;
  }

  // Two posts collapse exactly when their keys are equal.
  lemma {:induction false} CollapseIff(locate: Locator, a: Post, b: Post)
    ensures |Merge(locate, [a, b])| == 1 <==> Key(locate, a) == Key(locate, b)
  {
    hide Key, Merge;
    MergeSize(locate, [a, b]);
    assert [a, b][..1] == [a] && [a][..0] == [];
    KeysStep(locate, [a, b]);
    KeysStep(locate, [a]);
    NoKeys(locate);
    hide Keys;
    assert Keys(locate, [a]) == {Key(locate, a)};
    assert Keys(locate, [a, b]) == {Key(locate, a)} + {Key(locate, b)};
    if Key(locate, a) != Key(locate, b) {
      assert |{Key(locate, a)} + {Key(locate, b)}| == 2;
    } else {
      assert {Key(locate, a)} + {Key(locate, b)} == {Key(locate, a)};
    }
  }

  // With the locator in use, two posts without ids collapse exactly when their
  // locators are equal, whatever their URLs: the URL is never the key.
  lemma {:induction false} LocatorsCollapse(parse: string -> UrlParts, a: Post, b: Post)
    requires a.externalPostId.None? && b.externalPostId.None?
    ensures |Merge(Located(parse), [a, b])| == 1 <==> PostLocator(parse(a.url)) == PostLocator(parse(b.url))
  {
    hide Merge, PostLocator;
    CollapseIff(Located(parse), a, b);
  }

  // Posts with ids collapse exactly when the ids are equal, and a post with an id
  // absorbs one without exactly when the id is the locator of its URL.
  lemma {:induction false} IdsCollapse(parse: string -> UrlParts, a: Post, b: Post)
    requires a.externalPostId.Some?
    ensures b.externalPostId.Some? ==>
      (|Merge(Located(parse), [a, b])| == 1 <==> a.externalPostId == b.externalPostId)
    ensures b.externalPostId.None? ==>
      (|Merge(Located(parse), [a, b])| == 1 <==> a.externalPostId.value == PostLocator(parse(b.url)))
  {
    hide Merge, PostLocator;
    CollapseIff(Located(parse), a, b);
  }

  // The first of the segments that is a marker.
  predicate FirstMarkerAt(segments: seq<string>, k: nat)
    requires k < |segments|
  {
    segments[k] in {"posts", "videos", "reel"} && forall j :: 0 <= j < k ==> segments[j] !in {"posts", "videos", "reel"}
  }

  // The locator is the story id if there is one, else what follows the first
  // marker of the path.
  lemma {:induction false} PostLocatorIs(parts: UrlParts)
    ensures parts.storyId.Some? && parts.storyId.value != "" ==> PostLocator(parts) == parts.storyId.value
    ensures parts.storyId.GetOr("") == "" ==>
      forall k :: 0 <= k < |parts.segments| && FirstMarkerAt(parts.segments, k) ==>
        PostLocator(parts) == if k + 1 < |parts.segments| then parts.segments[k + 1] else ""
    ensures (parts.storyId.GetOr("") == ""
             && forall k :: 0 <= k < |parts.segments| ==> !FirstMarkerAt(parts.segments, k)) ==>
      PostLocator(parts) == ""
  {
    hide FirstMarkerAt;
    forall k | 0 <= k < |parts.segments| && FirstMarkerAt(parts.segments, k)
      ensures AfterMarker(parts.segments) == if k + 1 < |parts.segments| then parts.segments[k + 1] else ""
    {
      FirstMarker(parts.segments, k);
    }
    if forall k :: 0 <= k < |parts.segments| ==> !FirstMarkerAt(parts.segments, k) { NoMarker(parts.segments); }
  }

  lemma {:induction false} FirstMarker(segments: seq<string>, k: nat)
    requires k < |segments| && FirstMarkerAt(segments, k)
    ensures AfterMarker(segments) == if k + 1 < |segments| then segments[k + 1] else ""
  {
    if k > 0 {
      assert !IsMarker(segments[0]);
      assert forall j :: 0 <= j < |segments| - 1 ==> segments[1..][j] == segments[j + 1];
      FirstMarker(segments[1..], k - 1);
    }
  }

  lemma {:induction false} NoMarker(segments: seq<string>)
    requires forall k :: 0 <= k < |segments| ==> !FirstMarkerAt(segments, k)
    ensures AfterMarker(segments) == ""
  {
    if segments != [] {
      assert !FirstMarkerAt(segments, 0);
      var rest := segments[1..];
      forall k | 0 <= k < |rest| ensures !FirstMarkerAt(rest, k) {
        assert !FirstMarkerAt(segments, k + 1);
        MarkerLater(segments, k);
      }
      NoMarker(rest);
    }
  }

  lemma MarkerLater(segments: seq<string>, k: nat)
    requires k + 1 < |segments| && segments[0] !in {"posts", "videos", "reel"}
    ensures FirstMarkerAt(segments[1..], k) ==> FirstMarkerAt(segments, k + 1)
  {
    assert forall j :: 0 <= j < |segments| - 1 ==> segments[1..][j] == segments[j + 1];
  }

  lemma {:induction false} NoMarkerFirst(segments: seq<string>)
    requires forall i :: 0 <= i < |segments| ==> segments[i] != ""
    ensures AfterMarker(segments) == "" <==> forall i :: 0 <= i < |segments| - 1 ==> !IsMarker(segments[i])
  {
    hide IsMarker;
    if |segments| > 1 && !IsMarker(segments[0]) {
      NoMarkerFirst(segments[1..]);
      assert forall i :: 1 <= i < |segments| ==> segments[1..][i - 1] == segments[i];
    }
  }

  // A URL has no locator exactly when it carries no story id and no segment
  // follows a marker.
  lemma {:induction false} LocatorEmptyIff(parts: UrlParts)
    requires forall i :: 0 <= i < |parts.segments| ==> parts.segments[i] != ""
    ensures PostLocator(parts) == "" <==>
      parts.storyId.GetOr("") == ""
      && forall i :: 0 <= i < |parts.segments| - 1 ==> !IsMarker(parts.segments[i])
  {
    NoMarkerFirst(parts.segments);
  }
}
