// From the posts the browser agent captured to the crawler's accumulators:
// normalized block, page scan, graph walk.
module CaptureToCrawl {
  import opened Prelude
  import opened Json
  import opened Snapshot
  import opened SnapshotRoundTrip
  import ScriptExtraction
  import PostMerge
  import GraphWalk
  import opened GraphMeaning

  datatype NormalPost = NormalPost(postId: string, creationTime: int, text: string, url: string)

  predicate Complete(p: PostMerge.Post) {
    p.externalPostId.Some? && p.publishedAt.Some? && p.text.Some?
  }

  // The captured posts that have an id, a time and a text. `urlOf` stands for
  // the choice of the post's URL.
  function Normalized(urlOf: PostMerge.Post -> string, posts: seq<PostMerge.Post>): (r: seq<NormalPost>)
    ensures |r| <= |posts|
  {
    if posts == [] then []
    else
      var p, rest := posts[0], Normalized(urlOf, posts[1..]);
      if Complete(p)
      then [NormalPost(p.externalPostId.value, p.publishedAt.value / 1000, p.text.value, urlOf(p))] + rest
      else rest
  }

  function MessageValue(p: NormalPost): Value {
    Object([Member("text", String(p.text))])
  }

  function PostValue(p: NormalPost): Value {
    Object([Member("creation_time", Number(p.creationTime)), Member("message", MessageValue(p)),
            Member("post_id", String(p.postId)), Member("url", String(p.url))])
  }

  function PostValues(posts: seq<NormalPost>): (r: seq<Value>)
    ensures |r| == |posts| && forall i :: 0 <= i < |r| ==> r[i] == PostValue(posts[i])
  {
    seq(|posts|, i requires 0 <= i < |posts| => PostValue(posts[i]))
  }

  // The value behind the normalized payload.
  function Root(posts: seq<NormalPost>): Value {
    Object([Member("posts", Array(PostValues(posts)))])
  }

  // ---- The normalized block is within the walk's limits --------------------

  lemma LeafNodes(v: Value, depth: nat)
    requires GraphWalk.Arity(v) == 0
    ensures Nodes(v, depth) <= 1
  {
  }

  lemma MessageNodes(p: NormalPost)
    ensures Nodes(MessageValue(p), 3) <= 2
  {
    hide Nodes;
    var v := MessageValue(p);
    assert Nodes(v, 3) == 1 + NodesBelow(v, 1, 3) by { NodesUnfold(v, 3); }
    LeafNodes(Child(v, 0), 4);
    assert NodesBelow(v, 0, 3) == 0;
  }

  lemma NodesUnfold(v: Value, depth: nat)
    requires depth <= GraphWalk.MAX_JSON_DEPTH
    ensures Nodes(v, depth) == 1 + NodesBelow(v, GraphWalk.Arity(v), depth)
  {
  }

  lemma PostNodes(p: NormalPost)
    ensures Nodes(PostValue(p), 2) <= 6
  {
    hide Nodes, NodesBelow;
    var v := PostValue(p);
    NodesUnfold(v, 2);
    MessageNodes(p);
    forall i | 0 <= i < 4 ensures NodesBelow(v, i + 1, 2) == NodesBelow(v, i, 2) + Nodes(Child(v, i), 3) {
      BelowUnfold(v, i + 1, 2);
    }
    assert NodesBelow(v, 0, 2) == 0 by { BelowUnfold(v, 0, 2); }
    LeafNodes(Child(v, 0), 3);
    LeafNodes(Child(v, 2), 3);
    LeafNodes(Child(v, 3), 3);
    assert Child(v, 1) == MessageValue(p);
    assert NodesBelow(v, 1, 2) <= 1 && NodesBelow(v, 2, 2) <= 3 && NodesBelow(v, 3, 2) <= 4 && NodesBelow(v, 4, 2) <= 5;
  }

  lemma BelowUnfold(v: Value, n: nat, depth: nat)
    requires n <= GraphWalk.Arity(v) && depth <= GraphWalk.MAX_JSON_DEPTH
    ensures NodesBelow(v, n, depth)
            == if n == 0 then 0 else NodesBelow(v, n - 1, depth) + Nodes(Child(v, n - 1), depth + 1)
  {
  }

  lemma {:induction false} ListNodes(posts: seq<NormalPost>, n: nat)
    requires n <= |posts|
    ensures NodesBelow(Array(PostValues(posts)), n, 1) <= 6 * n
  {
    hide Nodes, NodesBelow, PostValue;
    var list := Array(PostValues(posts));
    BelowUnfold(list, n, 1);
    if n > 0 {
      ListNodes(posts, n - 1);
      PostNodes(posts[n - 1]);
      assert Child(list, n - 1) == PostValue(posts[n - 1]);
    }
  }

  lemma {:induction false} RootNodes(posts: seq<NormalPost>)
    ensures Nodes(Root(posts), 0) <= 2 + 6 * |posts|
  {
    hide Nodes, NodesBelow;
    var root, list := Root(posts), Array(PostValues(posts));
    NodesUnfold(root, 0);
    BelowUnfold(root, 1, 0);
    BelowUnfold(root, 0, 0);
    assert Child(root, 0) == list;
    ShallowerFits(posts);
  }

  lemma ShallowerFits(posts: seq<NormalPost>)
    ensures Nodes(Array(PostValues(posts)), 1) <= 1 + 6 * |posts|
  {
    hide Nodes, NodesBelow;
    NodesUnfold(Array(PostValues(posts)), 1);
    ListNodes(posts, |posts|);
  }

  // ---- What it gives ------------------------------------------------------

  // The path from the root to the i-th post.
  function PathOf(i: nat): seq<nat> {
    [0, i]
  }

  lemma PostAt(posts: seq<NormalPost>, i: nat)
    requires i < |posts|
    ensures NodeAt(Root(posts), PathOf(i)) == Some(PostValue(posts[i]))
    ensures !InAttachment(Root(posts), PathOf(i))
  {
    hide PostValue;
    var root, list := Root(posts), Array(PostValues(posts));
    assert [0, i][..1] == [0] && [0][..0] == [];
    assert NodeAt(root, [0][..0]) == Some(root);
    assert NodeAt(root, [0]) == Some(list);
    assert !InAttachment(root, [0][..0]);
    assert !InAttachment(root, [0]);
  }

  lemma PostFields(p: NormalPost)
    ensures var m := PostValue(p).members;
      && Lookup(m, "creation_time") == Some(Number(p.creationTime))
      && Lookup(m, "message") == Some(MessageValue(p))
      && GraphWalk.RawPostId(m) == Some(p.postId)
  {
    var m := PostValue(p).members;
    assert m[1..][0] == m[1] && m[1..][1..] == m[2..] && m[2..][0] == m[2];
    assert "creation_time"[0] == 'c' && "message"[0] == 'm' && "post_id"[0] == 'p';
    assert Lookup(m[2..], "post_id") == Some(String(p.postId));
    assert Lookup(m[1..], "post_id") == Lookup(m[2..], "post_id");
    assert Lookup(m, "post_id") == Lookup(m[1..], "post_id");
  }

  // The creation times the crawler keeps: positive 64-bit integers.
  predicate KeptTime(p: NormalPost) {
    0 < p.creationTime <= I64_MAX
  }

  // Every post with a numeric id gives its time, and its text when that is long
  // enough, to its own id.
  lemma PostGives(lib: GraphWalk.Library, posts: seq<NormalPost>, i: nat)
    requires i < |posts| && GraphWalk.Plausible(posts[i].postId)
    ensures KeptTime(posts[i]) ==>
      SomeGiver(lib, Root(posts), posts[i].postId, GraphWalk.Timestamp(posts[i].creationTime))
    ensures |lib.trim(posts[i].text)| >= 20 ==>
      SomeGiver(lib, Root(posts), posts[i].postId, GraphWalk.TextCandidate(100, lib.trim(posts[i].text)))
  {
    hide PostValue, GraphWalk.Contributions;
    var root, p, path := Root(posts), posts[i], PathOf(i);
    PostAt(posts, i);
    OwnFields(lib, p);
    assert PostValue(p).Object? by { PostIsObject(p); }
    assert OwnIdAt(root, path) == Some(p.postId);
    assert NearestId(root, path) == Some(p.postId);
    assert Contributes(root, path, p.postId);
    if KeptTime(p) {
      assert Gives(lib, root, path, p.postId, GraphWalk.Timestamp(p.creationTime));
    }
    if |lib.trim(p.text)| >= 20 {
      assert Gives(lib, root, path, p.postId, GraphWalk.TextCandidate(100, lib.trim(p.text)));
    }
  }

  lemma PostIsObject(p: NormalPost)
    ensures PostValue(p).Object?
  {
  }

  lemma OwnFields(lib: GraphWalk.Library, p: NormalPost)
    ensures PostValue(p).Object? && GraphWalk.OwnId(PostValue(p)) == Some(p.postId)
    ensures KeptTime(p) ==>
      GraphWalk.Timestamp(p.creationTime) in GraphWalk.Contributions(lib, PostValue(p).members, false)
    ensures |lib.trim(p.text)| >= 20 ==>
      GraphWalk.TextCandidate(100, lib.trim(p.text)) in GraphWalk.Contributions(lib, PostValue(p).members, false)
  {
    hide GraphWalk.PermalinkOf, GraphWalk.OutboundOf, GraphWalk.MediaOf, GraphWalk.StringValue;
    PostIsObject(p);
    PostFields(p);
    hide PostValue, Lookup;
    var m := PostValue(p).members;
    if KeptTime(p) {
      assert GraphWalk.TimestampOf(m, "creation_time") == Some(GraphWalk.Timestamp(p.creationTime));
    }
    MessageOf(lib, p);
  }

  lemma MessageOf(lib: GraphWalk.Library, p: NormalPost)
    ensures |lib.trim(p.text)| >= 20 ==>
      GraphWalk.TextOf(lib, PostValue(p).members, "message", 100)
      == Some(GraphWalk.TextCandidate(100, lib.trim(p.text)))
  {
    PostFields(p);
    hide PostValue;
    assert Get(Some(MessageValue(p)), "text") == Some(String(p.text));
  }

  // ---- What a post's object gives -----------------------------------------

  predicate Leaf(v: Option<Value>) {
    v.None? || !(v.value.Object? || v.value.Array?)
  }

  lemma BelowLeaf(node: Value, path: seq<nat>)
    requires path != [] && Leaf(NodeAt(node, path[..|path| - 1]))
    ensures NodeAt(node, path).None?
  {
  }

  lemma PostChild(node: Value, path: seq<nat>, p: NormalPost)
    requires path != [] && NodeAt(node, path[..|path| - 1]) == Some(PostValue(p))
    ensures Leaf(NodeAt(node, path)) || (NodeAt(node, path) == Some(MessageValue(p)) && path[|path| - 1] == 1)
  {
  }

  lemma MessageChild(node: Value, path: seq<nat>, p: NormalPost)
    requires path != [] && NodeAt(node, path[..|path| - 1]) == Some(MessageValue(p))
    ensures Leaf(NodeAt(node, path))
  {
  }

  lemma MessageHasNoId(p: NormalPost)
    ensures GraphWalk.OwnId(MessageValue(p)).None? && MessageValue(p).Object?
  {
    var m := MessageValue(p).members;
    assert m[1..] == [];
    assert "text"[0] == 't' && "post_id"[0] == 'p' && |"text"| == 4 && |"top_level_post_id"| == 17;
    assert Lookup(m, "post_id").None? && Lookup(m, "top_level_post_id").None?;
  }

  lemma PostNode(posts: seq<NormalPost>, i: nat)
    requires i < |posts|
    ensures NodeAt(Root(posts), PathOf(i)) == Some(PostValue(posts[i])) && PostValue(posts[i]).Object?
    ensures OwnIdAt(Root(posts), PathOf(i)) == Some(posts[i].postId)
    ensures NearestId(Root(posts), PathOf(i))
            == if GraphWalk.Plausible(posts[i].postId) then Some(posts[i].postId) else None
  {
    hide PostValue, GraphWalk.Plausible, NodeAt;
    PostAt(posts, i);
    PostIsObject(posts[i]);
    PostFields(posts[i]);
    var root, list := Root(posts), Array(PostValues(posts));
    OuterNodes(posts);
    assert [0, i][..1] == [0] && [0][..0] == [];
    assert NearestId(root, []).None?;
    assert NearestId(root, [0]).None?;
  }

  lemma OuterNodes(posts: seq<NormalPost>)
    ensures OwnIdAt(Root(posts), []).None? && OwnIdAt(Root(posts), [0]).None?
  {
    hide PostValue;
    var root, list := Root(posts), Array(PostValues(posts));
    assert [0][..0] == [];
    assert NodeAt(root, [0][..0]) == Some(root);
    assert NodeAt(root, [0]) == Some(list);
    var m := root.members;
    assert m[1..] == [];
    assert |"posts"| == 5 && |"post_id"| == 7 && |"top_level_post_id"| == 17;
    assert Lookup(m, "post_id").None? && Lookup(m, "top_level_post_id").None?;
  }

  // The object of a post, its message and everything else in it contribute to
  // the post's own id if that is numeric, and to no id otherwise.
  lemma {:induction false} PostGivesIff(posts: seq<NormalPost>, i: nat, id: string)
    requires i < |posts|
    ensures (exists path :: PathOf(i) <= path && Contributes(Root(posts), path, id))
            <==> id == posts[i].postId && GraphWalk.Plausible(id)
  {
    hide GraphWalk.Plausible, NodeAt, NearestId, OwnIdAt, Root;
    PostNode(posts, i);
    forall path | PathOf(i) <= path && Contributes(Root(posts), path, id)
      ensures id == posts[i].postId && GraphWalk.Plausible(id)
    {
      BelowPost(posts, i, path);
    }
    if id == posts[i].postId && GraphWalk.Plausible(id) {
      assert Contributes(Root(posts), PathOf(i), id);
    }
  }

  // Below a post only its message is an object, and that has the post's id.
  lemma {:induction false} BelowPost(posts: seq<NormalPost>, i: nat, path: seq<nat>)
    requires i < |posts| && PathOf(i) <= path
    ensures path == PathOf(i) || path == PathOf(i) + [1] || Leaf(NodeAt(Root(posts), path))
    ensures path == PathOf(i) + [1] ==> NodeAt(Root(posts), path) == Some(MessageValue(posts[i]))
    ensures path == PathOf(i) + [1] ==> NearestId(Root(posts), path) == NearestId(Root(posts), PathOf(i))
    ensures NodeAt(Root(posts), PathOf(i)) == Some(PostValue(posts[i]))
  {
    hide Root, PostValue, MessageValue, NodeAt;
    PostAt(posts, i);
    if path != PathOf(i) {
      var front := path[..|path| - 1];
      BelowPost(posts, i, front);
      if front == PathOf(i) {
        assert path == front + [path[|path| - 1]];
        PostChild(Root(posts), path, posts[i]);
        if path == PathOf(i) + [1] {
          MessageAt(Root(posts), path, posts[i]);
          MessageHasNoId(posts[i]);
        }
      } else if front == PathOf(i) + [1] {
        MessageChild(Root(posts), path, posts[i]);
      } else {
        BelowLeaf(Root(posts), path);
      }
    }
  }

  lemma MessageAt(node: Value, path: seq<nat>, p: NormalPost)
    requires path != [] && NodeAt(node, path[..|path| - 1]) == Some(PostValue(p)) && path[|path| - 1] == 1
    ensures NodeAt(node, path) == Some(MessageValue(p))
  {
  }

  // ---- End to end ---------------------------------------------------------

  lemma HeadFirst(normalized: string, payloads: seq<string>)
    requires normalized != "" && |normalized| <= NORMALIZED_LIMIT
    ensures var pieces := Appended(Some(normalized), payloads);
      pieces != [] && Payloads(pieces)[0] == normalized
  {
  }

  // The accumulators of a page with the agent's snapshot appended.
  function Crawled(lib: GraphWalk.Library, parse: string -> Option<Value>, html: string,
                   normalized: string, jsons: seq<string>): GraphWalk.Accumulators
  {
    var payloads := seq(|jsons|, i requires 0 <= i < |jsons| => Escape(jsons[i]));
    GraphWalk.Gathered(lib, parse,
                       ScriptExtraction.Scripts(html + PrintAll(Appended(Some(Escape(normalized)), payloads))))
  }

  lemma NormalPostCrawled(lib: GraphWalk.Library, parse: string -> Option<Value>, html: string,
                            normalized: string, jsons: seq<string>, posts: seq<NormalPost>, i: nat)
    requires ScriptExtraction.Settled(html)
    requires normalized != "" && |Escape(normalized)| <= NORMALIZED_LIMIT
    requires parse(Escape(normalized)) == Some(Root(posts)) && |posts| <= 100
    requires i < |posts| && GraphWalk.Plausible(posts[i].postId)
    ensures var acc := Crawled(lib, parse, html, normalized, jsons);
      && (KeptTime(posts[i]) ==> Holds(acc, posts[i].postId, GraphWalk.Timestamp(posts[i].creationTime)))
      && (|lib.trim(posts[i].text)| >= 20 ==>
        Holds(acc, posts[i].postId, GraphWalk.TextCandidate(100, lib.trim(posts[i].text))))
  {
    hide Nodes, Root, SomeGiver, Holds, GraphWalk.Gathered, ScriptExtraction.Scripts, ScriptExtraction.Settled,
         Appended, PrintAll, Payloads, GraphWalk.Plausible;
    var payloads := seq(|jsons|, i requires 0 <= i < |jsons| => Escape(jsons[i]));
    var pieces := Appended(Some(Escape(normalized)), payloads);
    var page := html + PrintAll(pieces);
    var before := ScriptExtraction.Scripts(html);
    SnapshotRead(html, Some(normalized), jsons);
    assert Escape(normalized) != "";
    HeadFirst(Escape(normalized), payloads);
    PayloadsLength(pieces);
    var k := |before|;
    assert ScriptExtraction.Scripts(page)[k] == Escape(normalized);
    RootNodes(posts);
    PostGives(lib, posts, i);
    var id := posts[i].postId;
    if KeptTime(posts[i]) {
      ScriptGathered(lib, parse, ScriptExtraction.Scripts(page), k, id, GraphWalk.Timestamp(posts[i].creationTime));
    }
    if |lib.trim(posts[i].text)| >= 20 {
      ScriptGathered(lib, parse, ScriptExtraction.Scripts(page), k, id,
                     GraphWalk.TextCandidate(100, lib.trim(posts[i].text)));
    }
  }

  lemma {:induction false} CompleteKept(urlOf: PostMerge.Post -> string, posts: seq<PostMerge.Post>, j: nat)
    returns (i: nat)
    requires j < |posts| && Complete(posts[j])
    ensures i < |Normalized(urlOf, posts)|
    ensures var p := posts[j];
      Normalized(urlOf, posts)[i]
      == NormalPost(p.externalPostId.value, p.publishedAt.value / 1000, p.text.value, urlOf(p))
  {
    if j == 0 {
      i := 0;
    } else {
      i := CompleteKept(urlOf, posts[1..], j - 1);
      if Complete(posts[0]) { i := i + 1; }
    }
  }

  // A complete captured post with a numeric id reaches the crawler under its own
  // id with its time and text, whatever else the page and the responses hold:
  // provided the page ends outside a script, the normalized block is within its
  // limit, and its text parses to the value it was printed from.
  lemma {:induction false} CapturedPostCrawled(lib: GraphWalk.Library, parse: string -> Option<Value>,
                                                   urlOf: PostMerge.Post -> string, html: string,
                                                   normalized: string, jsons: seq<string>,
                                                   posts: seq<PostMerge.Post>, j: nat)
    requires ScriptExtraction.Settled(html)
    requires normalized != "" && |Escape(normalized)| <= NORMALIZED_LIMIT
    requires parse(Escape(normalized)) == Some(Root(Normalized(urlOf, posts))) && |posts| <= 100
    requires j < |posts| && Complete(posts[j]) && GraphWalk.Plausible(posts[j].externalPostId.value)
    ensures var acc, p := Crawled(lib, parse, html, normalized, jsons), posts[j];
      var id, seconds, text := p.externalPostId.value, p.publishedAt.value / 1000, lib.trim(p.text.value);
      && (0 < seconds <= I64_MAX ==> Holds(acc, id, GraphWalk.Timestamp(seconds)))
      && (|text| >= 20 ==> Holds(acc, id, GraphWalk.TextCandidate(100, text)))
  {
    hide Root, Holds, Crawled, ScriptExtraction.Settled, GraphWalk.Plausible, Normalized;
    var i := CompleteKept(urlOf, posts, j);
    NormalPostCrawled(lib, parse, html, normalized, jsons, Normalized(urlOf, posts), i);
  }

  lemma {:induction false} PayloadsLength(pieces: seq<Piece>)
    ensures |Payloads(pieces)| == |pieces|
  {
    if pieces != [] { PayloadsLength(pieces[1..]); }
  }

  // A post known only by a pfbid id is not attributed to it.
  lemma {:induction false} OnlyNumericIds(lib: GraphWalk.Library, parse: string -> Option<Value>, scripts: seq<string>,
                       id: string, item: GraphWalk.Item)
    requires !GraphWalk.Plausible(id)
    ensures !Holds(GraphWalk.Gathered(lib, parse, scripts), id, item)
  {
    hide GraphWalk.Plausible, GraphWalk.Gathered, NodeAt, Contributes, Holds;
    GatheredMeaning(lib, parse, scripts, id, item);
    forall s, path | parse(s).Some? && Gives(lib, parse(s).value, path, id, item) ensures false {
      ContributorPlausible(parse(s).value, path, id);
    }
  }

  lemma ContributorPlausible(node: Value, path: seq<nat>, id: string)
    requires Contributes(node, path, id)
    ensures GraphWalk.Plausible(id)
  {
    hide GraphWalk.Plausible, NodeAt, NearestId;
    NearestPlausible(node, path);
  }

  // An id the agent takes for a post id and the crawler does not.
  lemma PfbidDiffers()
    ensures PostMerge.Plausible("pfbid02abc") && !GraphWalk.Plausible("pfbid02abc")
  {
    assert !('0' <= "pfbid02abc"[0] <= '9');
  }

  // A complete captured post reaches the accumulators of its id exactly when that
  // id is numeric, under the same conditions on the page and the block.
  lemma {:induction false} CapturedPostCrawledIff(lib: GraphWalk.Library, parse: string -> Option<Value>,
                                                      urlOf: PostMerge.Post -> string, html: string,
                                                      normalized: string, jsons: seq<string>,
                                                      posts: seq<PostMerge.Post>, j: nat)
    requires ScriptExtraction.Settled(html)
    requires normalized != "" && |Escape(normalized)| <= NORMALIZED_LIMIT
    requires parse(Escape(normalized)) == Some(Root(Normalized(urlOf, posts))) && |posts| <= 100
    requires j < |posts| && Complete(posts[j])
    ensures var acc, p := Crawled(lib, parse, html, normalized, jsons), posts[j];
      var id, seconds, text := p.externalPostId.value, p.publishedAt.value / 1000, lib.trim(p.text.value);
      && (0 < seconds <= I64_MAX ==> (Holds(acc, id, GraphWalk.Timestamp(seconds)) <==> GraphWalk.Plausible(id)))
      && (|text| >= 20 ==> (Holds(acc, id, GraphWalk.TextCandidate(100, text)) <==> GraphWalk.Plausible(id)))
  {
    hide Root, Holds, ScriptExtraction.Settled, ScriptExtraction.Scripts, GraphWalk.Plausible, Normalized,
         GraphWalk.Gathered, Appended, PrintAll;
    var id := posts[j].externalPostId.value;
    if GraphWalk.Plausible(id) {
      CapturedPostCrawled(lib, parse, urlOf, html, normalized, jsons, posts, j);
    } else {
      var payloads := seq(|jsons|, i requires 0 <= i < |jsons| => Escape(jsons[i]));
      var scripts := ScriptExtraction.Scripts(html + PrintAll(Appended(Some(Escape(normalized)), payloads)));
      OnlyNumericIds(lib, parse, scripts, id, GraphWalk.Timestamp(posts[j].publishedAt.value / 1000));
      OnlyNumericIds(lib, parse, scripts, id, GraphWalk.TextCandidate(100, lib.trim(posts[j].text.value)));
    }
  }
}
