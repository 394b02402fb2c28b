// What the walk reads of an object, member by member: its own id, its texts,
// links and media, and what makes it part of an attachment.
module GraphSources {
  import opened Prelude
  import opened Json
  import Decimal
  import ScriptScanner
  import opened GraphWalk
  import opened GraphItems
  import opened GraphMeaning

  // ---- Values -------------------------------------------------------------

  // The value of a key is that of its first member.
  lemma {:induction false} LookupIs(members: seq<Member>, key: string)
    ensures match Lookup(members, key)
      case None => forall i :: 0 <= i < |members| ==> members[i].key != key
      case Some(v) =>
        exists i :: 0 <= i < |members| && members[i] == Member(key, v)
          && forall j :: 0 <= j < i ==> members[j].key != key
  {
    if members != [] && members[0].key != key {
      LookupIs(members[1..], key);
      match Lookup(members, key)
      case None =>
        forall i | 0 <= i < |members| ensures members[i].key != key {
          if i > 0 { assert members[1..][i - 1] == members[i]; }
        }
      case Some(v) =>
        var i :| 0 <= i < |members| - 1 && members[1..][i] == Member(key, v)
          && forall j :: 0 <= j < i ==> members[1..][j].key != key;
        assert members[i + 1] == Member(key, v);
        forall j | 0 <= j < i + 1 ensures members[j].key != key {
          if j > 0 { assert members[1..][j - 1] == members[j]; }
        }
    }
  }

  // ---- Ids ----------------------------------------------------------------

  // A text, or a number as it is printed.
  ghost predicate Reads(v: Value, id: string) {
    match v
    case String(text) => id == text
    case Number(n) => id == Decimal.PrintInt(n)
    case Float(printed) => id == printed
    case Null => false
    case Bool(_) => false
    case Array(_) => false
    case Object(_) => false
  }

  // An object's own id is its `post_id` when that is a text or a number, and its
  // `top_level_post_id` only when it has no `post_id` at all.
  lemma {:induction false} OwnIdIs(members: seq<Member>, id: string)
    ensures OwnId(Object(members)) == Some(id) <==>
      match Lookup(members, "post_id")
      case Some(own) => Reads(own, id)
      case None =>
        match Lookup(members, "top_level_post_id")
        case Some(top) => Reads(top, id)
        case None => false
  {
    hide Lookup;
  }

  // An object with a numeric id of its own, from either member, has its items
  // gathered under that id.
  lemma {:induction false} OwnIdGathers(lib: Library, parse: string -> Option<Value>, scripts: seq<string>, k: nat,
                                        path: seq<nat>, members: seq<Member>, id: string, item: Item)
    requires k < |scripts| && parse(scripts[k]).Some? && Nodes(parse(scripts[k]).value, 0) <= MAX_JSON_NODES
    requires |path| <= MAX_JSON_DEPTH && NodeAt(parse(scripts[k]).value, path) == Some(Object(members))
    requires OwnId(Object(members)) == Some(id) && |id| >= 8 && forall i :: 0 <= i < |id| ==> '0' <= id[i] <= '9'
    requires Source(lib, members, InAttachment(parse(scripts[k]).value, path), item)
    ensures Holds(Gathered(lib, parse, scripts), id, item)
  {
    hide Nodes, Gathered, NodeAt, InAttachment, Source, Contributions, OwnId;
    var node := parse(scripts[k]).value;
    ContributionSource(lib, members, InAttachment(node, path), item);
    assert Plausible(id);
    assert OwnIdAt(node, path) == Some(id) && NearestId(node, path) == Some(id);
    assert Contributes(node, path, id) && Gives(lib, node, path, id, item);
    assert SomeGiver(lib, node, id, item);
    hide SomeGiver, Holds;
    ScriptGathered(lib, parse, scripts, k, id, item);
  }

  const REPLY := Object([Member("top_level_post_id", String("1234567890")),
                         Member("creation_time", Number(1_700_000_000))])

  // For instance the time of a reply that only names its top-level post.
  lemma {:induction false} TopLevelGathers(lib: Library, parse: string -> Option<Value>, script: string)
    requires parse(script) == Some(REPLY)
    ensures Holds(Gathered(lib, parse, [script]), "1234567890", Timestamp(1_700_000_000))
  {
    hide Gathered, Holds, Lookup, OwnId, Nodes;
    var m := REPLY.members;
    ReplyMembers(m);
    ReplyNodes();
    OwnIdIs(m, "1234567890");
    assert NodeAt(REPLY, []) == Some(Object(m));
    assert TimeKey("creation_time") && AsI64(Lookup(m, "creation_time")) == Some(1_700_000_000);
    assert Source(lib, m, InAttachment(REPLY, []), Timestamp(1_700_000_000));
    hide Source;
    TenDigits();
    OwnIdGathers(lib, parse, [script], 0, [], m, "1234567890", Timestamp(1_700_000_000));
  }

  lemma TenDigits()
    ensures |"1234567890"| == 10 && forall i :: 0 <= i < 10 ==> '0' <= "1234567890"[i] <= '9'
  {
  }

  lemma ReplyMembers(m: seq<Member>)
    requires m == REPLY.members
    ensures Lookup(m, "post_id").None? && Lookup(m, "top_level_post_id") == Some(String("1234567890"))
    ensures Lookup(m, "creation_time") == Some(Number(1_700_000_000))
  {
    assert m[1..] == [m[1]] && m[1..][1..] == [];
    assert |"post_id"| == 7 && |"top_level_post_id"| == 17 && |"creation_time"| == 13;
  }

  lemma ReplyNodes()
    ensures Nodes(REPLY, 0) <= 3
  {
    hide Nodes, NodesBelow;
    NodesOf(REPLY, 0);
    BelowOf(REPLY, 2, 0);
    BelowOf(REPLY, 1, 0);
    BelowOf(REPLY, 0, 0);
    LeafOf(Child(REPLY, 0), 1);
    LeafOf(Child(REPLY, 1), 1);
  }

  lemma NodesOf(v: Value, depth: nat)
    requires depth <= MAX_JSON_DEPTH
    ensures Nodes(v, depth) == 1 + NodesBelow(v, Arity(v), depth)
  {
  }

  lemma BelowOf(v: Value, n: nat, depth: nat)
    requires n <= Arity(v) && depth <= MAX_JSON_DEPTH
    ensures NodesBelow(v, n, depth)
            == if n == 0 then 0 else NodesBelow(v, n - 1, depth) + Nodes(Child(v, n - 1), depth + 1)
  {
  }

  lemma LeafOf(v: Value, depth: nat)
    requires Arity(v) == 0
    ensures Nodes(v, depth) <= 1
  {
  }

  // ---- Texts --------------------------------------------------------------

  // A message is a text, or an object with one; it counts without the white
  // space around it, unless nothing is left.
  lemma {:induction false} MessageTextIs(lib: Library, value: Option<Value>, text: string)
    ensures MessageText(lib, value) == Some(text) <==>
      && text != ""
      && ((exists raw :: value == Some(String(raw)) && lib.trim(raw) == text)
          || (exists m, raw :: value == Some(Object(m)) && Lookup(m, "text") == Some(String(raw))
                && lib.trim(raw) == text))
  {
    hide Lookup;
    if value.Some? && value.value.String? {
      assert value == Some(String(value.value.text));
    } else if value.Some? && value.value.Object? && AsText(Lookup(value.value.members, "text")).Some? {
      var m := value.value.members;
      assert value == Some(Object(m)) && Lookup(m, "text") == Some(String(Lookup(m, "text").value.text));
    }
  }

  // ---- Post links ---------------------------------------------------------

  predicate PostMark(mark: string) {
    mark == "/posts/" || mark == "/videos/" || mark == "/reel/" || mark == "story_fbid="
  }

  // A link looks like a post's exactly when it contains one of the four marks.
  lemma {:induction false} LooksLikePostIff(url: string)
    ensures LooksLikePost(url) <==> exists before, mark, after :: PostMark(mark) && url == before + mark + after
  {
    hide Contains;
    if LooksLikePost(url) {
      var mark := if Contains(url, "/posts/") then "/posts/" else if Contains(url, "/videos/") then "/videos/"
                  else if Contains(url, "/reel/") then "/reel/" else "story_fbid=";
      var before, after := Around(url, mark);
    }
    if before, mark, after :| PostMark(mark) && url == before + mark + after {
      Inside(before, mark, after);
    }
  }

  lemma Around(s: string, part: string) returns (before: string, after: string)
    requires Contains(s, part)
    ensures s == before + part + after
  {
    var i :| 0 <= i <= |s| && Occurs(s, i, part);
    before, after := s[..i], s[i + |part|..];
    assert s == s[..i] + s[i..i + |part|] + s[i + |part|..];
  }

  lemma Inside(before: string, part: string, after: string)
    ensures Contains(before + part + after, part)
  {
    assert Occurs(before + part + after, |before|, part);
  }

  // ---- Media --------------------------------------------------------------

  // A replacement of `\/` by `/` undoes the escaping of slashes.
  function Slashed(s: string): string {
    if s == "" then "" else (if s[0] == '/' then "\\/" else [s[0]]) + Slashed(s[1..])
  }

  lemma {:induction false} UnslashUndoes(s: string)
    requires '\\' !in s
    ensures Unslash(Slashed(s)) == s && Unslash(s) == s
  {
    if s != "" {
      var rest := s[1..];
      UnslashUndoes(rest);
      assert s == [s[0]] + rest && s[0] in s;
      if s[0] == '/' {
        var t := "\\/" + Slashed(rest);
        assert t[2..] == Slashed(rest) && t[0] == '\\' && t[1] == '/';
        assert Slashed(s) == t;
      } else {
        var t := [s[0]] + Slashed(rest);
        assert t[1..] == Slashed(rest) && t[0] != '\\';
        assert Slashed(s) == t;
      }
      assert s[0] != '\\';
    }
  }

  // The URI found by following member names from an object.
  ghost predicate UriThere(lib: Library, members: seq<Member>, path: seq<string>, uri: string) {
    lib.isHttpUrl(uri) && Reached(Object(members), path, String(uri))
  }

  ghost predicate Reached(value: Value, path: seq<string>, leaf: Value)
    decreases |path|
  {
    if path == [] then value == leaf
    else value.Object? && Lookup(value.members, path[0]).Some?
         && Reached(Lookup(value.members, path[0]).value, path[1..], leaf)
  }

  lemma {:induction false} FollowReaches(value: Value, path: seq<string>, leaf: Value)
    ensures Follow(value, path) == Some(leaf) <==> Reached(value, path, leaf)
    decreases |path|
  {
    if path != [] && value.Object? && Lookup(value.members, path[0]).Some? {
      FollowReaches(Lookup(value.members, path[0]).value, path[1..], leaf);
    }
  }

  const IMAGE_PATHS: seq<seq<string>> := [["image", "uri"], ["photo_image", "uri"],
                                          ["preferred_thumbnail", "image", "uri"], ["thumbnailImage", "uri"]]

  ghost predicate FirstUri(lib: Library, members: seq<Member>, paths: seq<seq<string>>, k: nat, uri: string)
    requires k < |paths|
  {
    UriThere(lib, members, paths[k], uri) && forall j, other :: 0 <= j < k ==> !UriThere(lib, members, paths[j], other)
  }

  lemma {:induction false} FirstLater(lib: Library, members: seq<Member>, paths: seq<seq<string>>, k: nat, uri: string)
    requires k + 1 < |paths| && forall other :: !UriThere(lib, members, paths[0], other)
    ensures FirstUri(lib, members, paths[1..], k, uri) <==> FirstUri(lib, members, paths, k + 1, uri)
  {
    hide UriThere;
    var rest := paths[1..];
    assert forall j :: 0 <= j < |rest| ==> rest[j] == paths[j + 1];
    if FirstUri(lib, members, rest, k, uri) {
      forall j, other | 0 <= j < k + 1 ensures !UriThere(lib, members, paths[j], other) {
        if j > 0 { assert !UriThere(lib, members, rest[j - 1], other); }
      }
    }
    if FirstUri(lib, members, paths, k + 1, uri) {
      forall j, other | 0 <= j < k ensures !UriThere(lib, members, rest[j], other) {
        assert !UriThere(lib, members, paths[j + 1], other);
      }
    }
  }

  lemma UriThereIff(lib: Library, members: seq<Member>, path: seq<string>, uri: string)
    ensures UriThere(lib, members, path, uri) <==>
      lib.isHttpUrl(uri) && AsText(Follow(Object(members), path)) == Some(uri)
  {
    FollowReaches(Object(members), path, String(uri));
  }

  // An object's nested URI is the http URI at the first path that leads to one,
  // with escaped slashes replaced.
  lemma {:induction false} NestedUriIs(lib: Library, members: seq<Member>, paths: seq<seq<string>>, url: string)
    ensures NestedUri(lib, Object(members), paths) == Some(url) <==>
      exists k, uri :: 0 <= k < |paths| && FirstUri(lib, members, paths, k, uri) && url == Unslash(uri)
    ensures NestedUri(lib, Object(members), paths).None? <==>
      forall k, uri :: 0 <= k < |paths| ==> !UriThere(lib, members, paths[k], uri)
  {
    hide Follow, Unslash, UriThere, FirstUri;
    if paths != [] {
      var rest := paths[1..];
      assert forall j :: 0 <= j < |rest| ==> rest[j] == paths[j + 1];
      forall uri ensures UriThere(lib, members, paths[0], uri)
                         <==> lib.isHttpUrl(uri) && AsText(Follow(Object(members), paths[0])) == Some(uri) {
        UriThereIff(lib, members, paths[0], uri);
      }
      var here := AsText(Follow(Object(members), paths[0]));
      if here.Some? && lib.isHttpUrl(here.value) {
        OnlyFirst(lib, members, paths, here.value);
      } else {
        NestedUriIs(lib, members, rest, url);
        forall k, uri | 0 <= k < |rest|
          ensures FirstUri(lib, members, rest, k, uri) <==> FirstUri(lib, members, paths, k + 1, uri)
        {
          FirstLater(lib, members, paths, k, uri);
        }
        forall uri ensures !FirstUri(lib, members, paths, 0, uri) { NotFirst(lib, members, paths, uri); }
        Shift(lib, members, paths, url);
      }
    }
  }

  lemma NotFirst(lib: Library, members: seq<Member>, paths: seq<seq<string>>, uri: string)
    requires paths != [] && !UriThere(lib, members, paths[0], uri)
    ensures !FirstUri(lib, members, paths, 0, uri)
  {
    hide UriThere;
  }

  lemma OnlyFirst(lib: Library, members: seq<Member>, paths: seq<seq<string>>, uri: string)
    requires paths != [] && forall u :: UriThere(lib, members, paths[0], u) <==> u == uri
    ensures FirstUri(lib, members, paths, 0, uri)
    ensures forall k, u :: 0 <= k < |paths| && FirstUri(lib, members, paths, k, u) ==> u == uri
  {
    hide UriThere;
    forall k, u | 0 <= k < |paths| && FirstUri(lib, members, paths, k, u) ensures u == uri {
      assert UriThere(lib, members, paths[0], uri);
      assert k == 0;
    }
  }

  lemma Shift(lib: Library, members: seq<Member>, paths: seq<seq<string>>, url: string)
    requires paths != [] && forall uri :: !FirstUri(lib, members, paths, 0, uri)
    requires forall k, uri :: 0 <= k < |paths| - 1 ==>
      (FirstUri(lib, members, paths[1..], k, uri) <==> FirstUri(lib, members, paths, k + 1, uri))
    ensures (exists k, uri :: 0 <= k < |paths| - 1 && FirstUri(lib, members, paths[1..], k, uri) && url == Unslash(uri))
      <==> (exists k, uri :: 0 <= k < |paths| && FirstUri(lib, members, paths, k, uri) && url == Unslash(uri))
  {
    hide FirstUri, Unslash;
    if k, uri :| 0 <= k < |paths| - 1 && FirstUri(lib, members, paths[1..], k, uri) && url == Unslash(uri) {
      assert FirstUri(lib, members, paths, k + 1, uri);
    }
    if k, uri :| 0 <= k < |paths| && FirstUri(lib, members, paths, k, uri) && url == Unslash(uri) {
      var before := k - 1;
      assert FirstUri(lib, members, paths[1..], before, uri);
    }
  }

  // ---- Kind and URL of a medium -------------------------------------------

  // The type is `__typename`, or `media_type` when there is no `__typename`.
  ghost predicate TypeIs(members: seq<Member>, name: string) {
    match Lookup(members, "__typename")
    case Some(own) => own == String(name)
    case None => Lookup(members, "media_type") == Some(String(name))
  }

  lemma {:induction false} MediaKindIs(members: seq<Member>, kind: string)
    ensures MediaKind(members) == Some(kind) <==>
      exists name :: TypeIs(members, name)
        && ((kind == "video" && ScriptScanner.EqualIgnoringCase(name, "video"))
            || (kind == "image" && (ScriptScanner.EqualIgnoringCase(name, "photo")
                                    || ScriptScanner.EqualIgnoringCase(name, "image"))))
  {
    hide Lookup;
    var name := TypeName(members);
    assert |"video"| == 5 && |"photo"| == 5 && |"image"| == 5;
    assert "video"[0] == 'v' && "photo"[0] == 'p' && "image"[0] == 'i';
    forall other | TypeIs(members, other) ensures other == name {
    }
    if name != "" { assert TypeIs(members, name); }
  }

  // The medium's URL is the nested URI; a video without one may name its file.
  lemma {:induction false} MediaUrlIs(lib: Library, members: seq<Member>, kind: string, url: string)
    ensures MediaUrl(lib, members, kind) == Some(url) <==>
      || (exists k, uri :: 0 <= k < 4 && FirstUri(lib, members, IMAGE_PATHS, k, uri) && url == Unslash(uri))
      || (&& kind == "video" && lib.isHttpUrl(url)
          && (forall k, uri :: 0 <= k < 4 ==> !UriThere(lib, members, IMAGE_PATHS[k], uri))
          && match Lookup(members, "playable_url")
             case Some(playable) => playable == String(url)
             case None => Lookup(members, "browser_native_hd_url") == Some(String(url)))
  {
    hide Lookup, NestedUri, FirstUri, UriThere, Unslash;
    assert URI_PATHS == IMAGE_PATHS;
    NestedUriIs(lib, members, IMAGE_PATHS, url);
    var nested := NestedUri(lib, Object(members), URI_PATHS);
    if nested.Some? { NestedUriIs(lib, members, IMAGE_PATHS, nested.value); }
  }

  // ---- Attachments --------------------------------------------------------

  predicate AttachmentWord(key: string) {
    key in {"attachments", "attachment", "media", "all_subattachments", "subattachments"}
  }

  // Step i of the path leaves an object by a member with one of these keys.
  ghost predicate AttachedAt(node: Value, path: seq<nat>, i: nat)
    requires i < |path|
  {
    exists m: seq<Member> ::
      NodeAt(node, path[..i]) == Some(Object(m)) && path[i] < |m| && AttachmentWord(m[path[i]].key)
  }

  lemma AttachedLast(node: Value, path: seq<nat>)
    requires path != []
    ensures var last := |path| - 1;
      var parent := NodeAt(node, path[..last]);
      AttachedAt(node, path, last) <==>
        parent.Some? && parent.value.Object? && path[last] < |parent.value.members|
        && IsAttachmentKey(parent.value.members[path[last]].key)
  {
    hide NodeAt;
    var parent := NodeAt(node, path[..|path| - 1]);
    if parent.Some? && parent.value.Object? { assert parent == Some(Object(parent.value.members)); }
  }

  lemma AttachedFront(node: Value, path: seq<nat>, i: nat)
    requires i < |path| - 1
    ensures AttachedAt(node, path[..|path| - 1], i) <==> AttachedAt(node, path, i)
  {
    assert path[..|path| - 1][..i] == path[..i];
  }

  // A node lies in an attachment exactly when some step of its path does so.
  lemma {:induction false} InAttachmentIff(node: Value, path: seq<nat>)
    ensures InAttachment(node, path) <==> exists i :: 0 <= i < |path| && AttachedAt(node, path, i)
  {
    hide NodeAt, AttachedAt, IsAttachmentKey;
    if path != [] {
      var last := |path| - 1;
      InAttachmentIff(node, path[..last]);
      forall i | 0 <= i < last ensures AttachedAt(node, path[..last], i) <==> AttachedAt(node, path, i) {
        AttachedFront(node, path, i);
      }
      AttachedLast(node, path);
    }
  }
}
