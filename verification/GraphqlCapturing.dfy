// GraphqlCapture: what the browser agent keeps of the responses of one page
// visit, and when all of it reaches the snapshot.
module GraphqlCapturing {
  import opened Prelude
  import opened PostMerge
  import opened CaptureRuns
  import opened Snapshot
  import opened SnapshotRoundTrip

  const MAX_POSTS: nat := 100
  const MAX_PAYLOADS: nat := 12

  // One inspected response: its serialized roots and the posts found in them,
  // before inspectGraphqlBody merges those.
  datatype Body = Body(payloads: seq<string>, posts: seq<Post>)

  function Sum(payloads: seq<string>): nat {
    if payloads == [] then 0 else Sum(payloads[..|payloads| - 1]) + |payloads[|payloads| - 1]|
  }

  predicate Accepts(kept: seq<string>, payload: string) {
    |kept| < MAX_PAYLOADS && payload !in kept && Sum(kept) + |payload| <= SNAPSHOT_LIMIT - NORMALIZED_LIMIT
  }

  function Keep(kept: seq<string>, offered: seq<string>): seq<string> {
    if offered == [] then kept
    else
      var before, payload := Keep(kept, offered[..|offered| - 1]), offered[|offered| - 1];
      if Accepts(before, payload) then before + [payload] else before
  }

  function Cut(posts: seq<Post>): seq<Post> {
    if |posts| <= MAX_POSTS then posts else posts[..MAX_POSTS]
  }

  predicate WithinBudget(payloads: seq<string>) {
    |payloads| <= MAX_PAYLOADS && Distinct(payloads) && Sum(payloads) <= SNAPSHOT_LIMIT - NORMALIZED_LIMIT
  }

  class GraphqlCapture {
    var payloads: seq<string>
    var payloadSet: set<string>
    var posts: seq<Post>
    var totalBytes: nat

    ghost predicate Valid()
      reads this
    {
      && WithinBudget(payloads) && totalBytes == Sum(payloads)
      && forall p :: p in payloadSet <==> p in payloads
    }

    constructor ()
      ensures Valid() && payloads == [] && posts == []
    {
      payloads, payloadSet, posts, totalBytes := [], {}, [], 0;
    }

    // `collect` on a response that passed its status and size checks.
    method Collect(locate: Locator, body: Body)
      requires Valid()
      modifies this
      ensures Valid()
      ensures posts == Cut(Merge(locate, old(posts) + Merge(locate, body.posts)))
      ensures payloads == Keep(old(payloads), body.payloads)
    {
      hide Merge, Distinct, Cut, Keep, Sum;
      var found := MergeGraphqlPosts(locate, body.posts);
      var merged := MergeGraphqlPosts(locate, posts + found);
      posts := Cut(merged);
      KeepPayloads(body.payloads);
    }

    // The loop over the serialized roots.
    method KeepPayloads(offered: seq<string>)
      requires Valid()
      modifies this`payloads, this`payloadSet, this`totalBytes
      ensures Valid()
      ensures payloads == Keep(old(payloads), offered)
    {
      hide Distinct;
      for i := 0 to |offered|
        invariant Valid()
        invariant payloads == Keep(old(payloads), offered[..i])
      {
        var payload := offered[i];
        assert offered[..i + 1][..i] == offered[..i];
        if |payloads| >= MAX_PAYLOADS || payload in payloadSet {
          continue;
        }
        if totalBytes + |payload| > SNAPSHOT_LIMIT - NORMALIZED_LIMIT {
          continue;
        }
        assert (payloads + [payload])[..|payloads|] == payloads;
        DistinctGrows(payloads, payload);
        payloads := payloads + [payload];
        payloadSet := payloadSet + {payload};
        totalBytes := totalBytes + |payload|;
      }
      assert offered[..|offered|] == offered;
    }
  }

  lemma DistinctGrows(s: seq<string>, x: string)
    requires Distinct(s) && x !in s
    ensures Distinct(s + [x])
  {
  }

  // ---- Runs ---------------------------------------------------------------

  function CapturedPosts(locate: Locator, bodies: seq<Body>): seq<Post> {
    if bodies == [] then []
    else
      var last := |bodies| - 1;
      Cut(Merge(locate, CapturedPosts(locate, bodies[..last]) + Merge(locate, bodies[last].posts)))
  }

  function AllPosts(bodies: seq<Body>): seq<Post> {
    if bodies == [] then [] else AllPosts(bodies[..|bodies| - 1]) + bodies[|bodies| - 1].posts
  }

  predicate GoodBodies(bodies: seq<Body>) {
    forall i :: 0 <= i < |bodies| ==> GoodIds(bodies[i].posts)
  }

  // How many different posts have been seen.
  function Seen(locate: Locator, bodies: seq<Body>): nat {
    |Fold(locate, map[], AllPosts(bodies))|
  }

  lemma {:induction false} FoldGrows(locate: Locator, m: map<string, Post>, posts: seq<Post>)
    ensures |Fold(locate, m, posts)| >= |m|
  {
    hide Key, Combine;
    if posts != [] { FoldGrows(locate, m, posts[..|posts| - 1]); }
  }

  lemma {:induction false} AllGood(bodies: seq<Body>)
    requires GoodBodies(bodies)
    ensures GoodIds(AllPosts(bodies))
  {
    hide GoodId;
    if bodies != [] { AllGood(bodies[..|bodies| - 1]); }
  }

  lemma {:induction false} DistinctCount(locate: Locator, posts: seq<Post>)
    requires DistinctKeys(locate, posts)
    ensures |Fold(locate, map[], posts)| == |posts|
  {
    hide Key, Combine;
    if posts != [] {
      var last := |posts| - 1;
      DistinctCount(locate, posts[..last]);
      FoldDistinct(locate, posts[..last]);
    }
  }

  // A merge has one post per key that occurs.
  lemma MergeCount(locate: Locator, posts: seq<Post>)
    requires GoodIds(posts)
    ensures |Merge(locate, posts)| == |Fold(locate, map[], posts)|
  {
    hide Merge, Fold, GoodIds, NewestFirst, DistinctKeys;
    MergeMeaning(locate, posts);
    DistinctCount(locate, Merge(locate, posts));
  }

  predicate Whole(locate: Locator, captured: seq<Post>, all: seq<Post>) {
    Fold(locate, map[], captured) == Fold(locate, map[], all)
  }

  predicate Listed(locate: Locator, posts: seq<Post>) {
    NewestFirst(posts) && DistinctKeys(locate, posts) && GoodIds(posts)
  }

  lemma CutListed(locate: Locator, posts: seq<Post>)
    requires Listed(locate, posts)
    ensures Listed(locate, Cut(posts)) && |Cut(posts)| <= MAX_POSTS
  {
  }

  // Whatever was captured, at most 100 posts are kept, newest first, one a key.
  lemma {:induction false} CapturedListed(locate: Locator, bodies: seq<Body>)
    requires GoodBodies(bodies)
    ensures Listed(locate, CapturedPosts(locate, bodies)) && |CapturedPosts(locate, bodies)| <= MAX_POSTS
  {
    hide Merge, Cut, Key, NotEarlier, GoodId;
    if bodies != [] {
      var last := |bodies| - 1;
      CapturedListed(locate, bodies[..last]);
      hide NewestFirst, DistinctKeys;
      MergeMeaning(locate, bodies[last].posts);
      var both := CapturedPosts(locate, bodies[..last]) + Merge(locate, bodies[last].posts);
      MergeMeaning(locate, both);
      CutListed(locate, Merge(locate, both));
    }
  }

  // One more response, as long as nothing has been cut.
  lemma CaptureStep(locate: Locator, before: seq<Post>, all: seq<Post>, found: seq<Post>)
    requires GoodIds(before) && GoodIds(all) && GoodIds(found)
    requires Whole(locate, before, all) && |Fold(locate, map[], all + found)| <= MAX_POSTS
    ensures Whole(locate, Cut(Merge(locate, before + Merge(locate, found))), all + found)
  {
    hide Merge, Fold, GoodId, NewestFirst, DistinctKeys, Joined;
    var m := Fold(locate, map[], all);
    MergeMeaning(locate, found);
    var both := before + Merge(locate, found);
    MergeMeaning(locate, both);
    MergeCount(locate, both);
    FoldAppend(locate, map[], before, Merge(locate, found));
    FoldAppend(locate, map[], all, found);
    FoldJoined(locate, m, Merge(locate, found));
    FoldJoined(locate, m, found);
  }

  // What is captured response by response is what one merge of all the posts
  // would keep, exactly while no more than 100 different ones were seen.
  lemma {:induction false} CaptureIsMerge(locate: Locator, bodies: seq<Body>)
    requires GoodBodies(bodies)
    ensures Whole(locate, CapturedPosts(locate, bodies), AllPosts(bodies)) <==> Seen(locate, bodies) <= MAX_POSTS
  {
    hide Merge, Fold, Cut, Key, GoodId, NewestFirst, DistinctKeys;
    CapturedListed(locate, bodies);
    DistinctCount(locate, CapturedPosts(locate, bodies));
    if bodies != [] && Seen(locate, bodies) <= MAX_POSTS {
      var last := |bodies| - 1;
      var before, all, found := bodies[..last], AllPosts(bodies[..last]), bodies[last].posts;
      FoldAppend(locate, map[], all, found);
      FoldGrows(locate, Fold(locate, map[], all), found);
      CaptureIsMerge(locate, before);
      CapturedListed(locate, before);
      AllGood(before);
      CaptureStep(locate, CapturedPosts(locate, before), all, found);
    }
  }

  // What is kept of a merge is as much as fits, from its newest end.
  lemma {:induction false} NewestKept(locate: Locator, posts: seq<Post>)
    ensures var merged, kept := Merge(locate, posts), Cut(Merge(locate, posts));
      && |kept| == (if |merged| <= 100 then |merged| else 100)
      && (forall i :: 0 <= i < |kept| ==> kept[i] == merged[i])
      && (forall i, j :: 0 <= i < |kept| <= j < |merged| ==>
            merged[j].publishedAt.None?
            || (kept[i].publishedAt.Some? && kept[i].publishedAt.value >= merged[j].publishedAt.value))
  {
    hide Fold, Order;
    OrderIsKeys(locate, posts);
    SortSorts(Values(Fold(locate, map[], posts), Order(locate, posts)));
    hide StableSort;
  }

  // ---- Payload budgets ----------------------------------------------------

  lemma {:induction false} RawSize(payloads: seq<string>)
    ensures Size(Raw(payloads)) == Sum(payloads) + 67 * |payloads|
  {
    hide PieceSize;
    if payloads != [] {
      var last := |payloads| - 1;
      var piece := Piece("graphql", payloads[last]);
      RawSize(payloads[..last]);
      SizeConcat(Raw(payloads[..last]), [piece]);
      assert [piece][1..] == [];
      assert Size([piece]) == PieceSize(piece) + Size([piece][1..]);
      PieceSizes(payloads[last]);
    }
  }

  lemma PieceSizes(payload: string)
    ensures PieceSize(Piece("graphql", payload)) == 67 + |payload|
    ensures PieceSize(Piece("graphql-normalized", payload)) == 78 + |payload|
  {
  }

  // Every captured payload reaches the snapshot exactly when payloads, tags and
  // the normalized block fit together.
  lemma {:induction false} AllAppendedIff(normalized: Option<string>, payloads: seq<string>)
    ensures Appended(normalized, payloads) == Head(normalized) + Raw(payloads) <==>
      Size(Head(normalized)) + Sum(payloads) + 67 * |payloads| <= SNAPSHOT_LIMIT
  {
    hide Open, PieceSize;
    var used := Size(Head(normalized));
    HeadFits(normalized);
    FitAllIff(payloads, used);
    RawSize(payloads);
    RawLength(payloads);
    var kept := Fit(payloads, used).0;
    assert (Head(normalized) + kept)[|Head(normalized)|..] == kept;
    assert (Head(normalized) + Raw(payloads))[|Head(normalized)|..] == Raw(payloads);
  }

  lemma {:induction false} RawLength(payloads: seq<string>)
    ensures |Raw(payloads)| == |payloads|
  {
    if payloads != [] { RawLength(payloads[..|payloads| - 1]); }
  }

  // The capture budgets alone do not ensure it: they leave no room for tags.
  lemma {:induction false} BudgetsNotEnough(normalized: string, payloads: seq<string>)
    requires |normalized| == NORMALIZED_LIMIT && WithinBudget(payloads)
    requires Sum(payloads) == SNAPSHOT_LIMIT - NORMALIZED_LIMIT
    ensures Appended(Some(normalized), payloads) != Head(Some(normalized)) + Raw(payloads)
  {
    hide PieceSize, Appended, Distinct;
    AllAppendedIff(Some(normalized), payloads);
    assert normalized != "";
    assert Head(Some(normalized))[1..] == [];
    PieceSizes(normalized);
  }

  // ---- Full budgets occur -------------------------------------------------

  function Fill(n: nat, c: char): (s: string)
    ensures |s| == n && forall i :: 0 <= i < n ==> s[i] == c
  {
    seq(n, _ => c)
  }

  // A JSON string of 1.5 MiB.
  function Text(c: char): (s: string)
    ensures |s| == 1_572_864 && s[1] == c
  {
    ['"'] + Fill(1_572_862, c) + ['"']
  }

  lemma TwoKept(a: string, b: string)
    requires a != b && |a| + |b| <= SNAPSHOT_LIMIT - NORMALIZED_LIMIT
    ensures Distinct([a, b]) && Sum([a, b]) == |a| + |b| && Keep([], [a, b]) == [a, b]
  {
    var none: seq<string> := [];
    assert [a, b][..1] == [a] && [a][..0] == none;
    assert Sum(none) == 0 && Sum([a]) == |a|;
    assert Keep(none, none) == none && Keep(none, [a]) == [a];
    assert [a] + [b] == [a, b];
  }

  lemma TwoTexts()
    ensures Distinct([Text('a'), Text('b')]) && Sum([Text('a'), Text('b')]) == SNAPSHOT_LIMIT - NORMALIZED_LIMIT
    ensures Keep([], [Text('a'), Text('b')]) == [Text('a'), Text('b')]
  {
    hide Text, Sum, Keep, Distinct;
    assert Text('a')[1] != Text('b')[1];
    TwoKept(Text('a'), Text('b'));
  }

  // For every JSON frame around a text there is a text that fills the normalized
  // budget, and two captured payloads fill theirs; then not all is appended.
  lemma {:induction false} FullBudgetsOccur(prefix: string, suffix: string)
    returns (text: string, payloads: seq<string>)
    requires prefix != "" && |prefix| + |suffix| <= NORMALIZED_LIMIT
    ensures |prefix + text + suffix| == NORMALIZED_LIMIT && forall i :: 0 <= i < |text| ==> text[i] == 'x'
    ensures Keep([], payloads) == payloads && WithinBudget(payloads)
    ensures Sum(payloads) == SNAPSHOT_LIMIT - NORMALIZED_LIMIT
    ensures Appended(Some(prefix + text + suffix), payloads) != Head(Some(prefix + text + suffix)) + Raw(payloads)
  {
    hide Appended, Text, Keep, Distinct, Sum, Head, Raw;
    text := Fill(NORMALIZED_LIMIT - |prefix| - |suffix|, 'x');
    payloads := [Text('a'), Text('b')];
    TwoTexts();
    BudgetsNotEnough(prefix + text + suffix, payloads);
  }
}
