// The crawler's walk over a parsed script: every object contributes to the post
// whose id is nearest, and the walk stops at a depth and a number of nodes.
module GraphWalk {
  import opened Prelude
  import opened Json
  import Decimal
  import ScriptScanner

  const MAX_JSON_DEPTH: nat := 128
  const MAX_JSON_NODES: nat := 200_000

  // The URL library and Unicode trimming.
  datatype Library = Library(
    isHttpUrl: string -> bool,
    canonicalizeUrl: string -> Option<string>,
    isExternalUrl: string -> bool,
    trim: string -> string)

  // What a post accumulates; the five sets of PostAccumulator as one.
  datatype Item =
    | Timestamp(seconds: int)
    | Permalink(url: string)
    | TextCandidate(score: nat, text: string)
    | OutboundLink(url: string)
    | Media(kind: string, url: string, altText: Option<string>)

  type Accumulators = map<string, set<Item>>

  // ---- Ids ----------------------------------------------------------------

  function StringValue(v: Option<Value>): Option<string> {
    if v.None? then None
    else
      match v.value
      case String(text) => Some(text)
      case Number(n) => Some(Decimal.PrintInt(n))
      case Float(printed) => Some(printed)
      case Null => None
      case Bool(_) => None
      case Array(_) => None
      case Object(_) => None
  }

  predicate Plausible(id: string) {
    |id| >= 8 && Decimal.AllDigits(id)
  }

  // A `post_id` that is neither text nor number hides `top_level_post_id`.
  function RawPostId(members: seq<Member>): Option<string> {
    var own := Lookup(members, "post_id");
    StringValue(if own.Some? then own else Lookup(members, "top_level_post_id"))
  }

  function OwnId(node: Value): Option<string> {
    if node.Object? then RawPostId(node.members) else None
  }

  // ---- What one object contributes ----------------------------------------

  function One(item: Option<Item>): set<Item> {
    if item.Some? then {item.value} else {}
  }

  function TimestampOf(members: seq<Member>, key: string): Option<Item> {
    var t := AsI64(Lookup(members, key));
    if t.Some? && t.value > 0 then Some(Timestamp(t.value)) else None
  }

  predicate Occurs(s: string, i: nat, part: string) {
    i + |part| <= |s| && s[i..i + |part|] == part
  }

  predicate Contains(s: string, part: string) {
    exists i :: 0 <= i <= |s| && Occurs(s, i, part)
  }

  predicate LooksLikePost(url: string) {
    Contains(url, "/posts/") || Contains(url, "/videos/") || Contains(url, "/reel/") || Contains(url, "story_fbid=")
  }

  function HttpUrl(lib: Library, members: seq<Member>, key: string): Option<string> {
    var url := AsText(Lookup(members, key));
    if url.Some? && lib.isHttpUrl(url.value) then url else None
  }

  function PermalinkOf(lib: Library, members: seq<Member>, key: string): Option<Item> {
    var url := HttpUrl(lib, members, key);
    if url.None? || !LooksLikePost(url.value) then None
    else
      match lib.canonicalizeUrl(url.value) case None => None case Some(normal) => Some(Permalink(normal))
  }

  function OutboundOf(lib: Library, members: seq<Member>, key: string): Option<Item> {
    var url := HttpUrl(lib, members, key);
    if url.None? then None
    else
      match lib.canonicalizeUrl(url.value)
      case None => None
      case Some(normal) => if lib.isExternalUrl(normal) then Some(OutboundLink(normal)) else None
  }

  function MessageText(lib: Library, value: Option<Value>): Option<string> {
    var text := if value.Some? && value.value.Object? then AsText(Get(value, "text")) else AsText(value);
    if text.None? || lib.trim(text.value) == "" then None else Some(lib.trim(text.value))
  }

  function TextOf(lib: Library, members: seq<Member>, key: string, score: nat): Option<Item> {
    var text := MessageText(lib, Lookup(members, key));
    if text.Some? && |text.value| >= 20 then Some(TextCandidate(score, text.value)) else None
  }

  function Follow(node: Value, path: seq<string>): Option<Value>
    decreases |path|
  {
    if path == [] then Some(node)
    else
      match Get(Some(node), path[0]) case None => None case Some(next) => Follow(next, path[1..])
  }

  // `replace("\\/", "/")`.
  function Unslash(s: string): string {
    if |s| >= 2 && s[0] == '\\' && s[1] == '/' then ['/'] + Unslash(s[2..])
    else if s == "" then "" else [s[0]] + Unslash(s[1..])
  }

  function NestedUri(lib: Library, node: Value, paths: seq<seq<string>>): Option<string> {
    if paths == [] then None
    else
      var uri := AsText(Follow(node, paths[0]));
      if uri.Some? && lib.isHttpUrl(uri.value) then Some(Unslash(uri.value))
      else NestedUri(lib, node, paths[1..])
  }

  const URI_PATHS := [["image", "uri"], ["photo_image", "uri"],
                      ["preferred_thumbnail", "image", "uri"], ["thumbnailImage", "uri"]]

  function TypeName(members: seq<Member>): string {
    var own := Lookup(members, "__typename");
    AsText(if own.Some? then own else Lookup(members, "media_type")).GetOr("")
  }

  function MediaKind(members: seq<Member>): Option<string> {
    var name := TypeName(members);
    if ScriptScanner.EqualIgnoringCase(name, "video") then Some("video")
    else if ScriptScanner.EqualIgnoringCase(name, "photo") || ScriptScanner.EqualIgnoringCase(name, "image")
    then Some("image")
    else None
  }

  function MediaUrl(lib: Library, members: seq<Member>, kind: string): Option<string> {
    var nested := NestedUri(lib, Object(members), URI_PATHS);
    if nested.Some? || kind != "video" then nested
    else
      var playable := Lookup(members, "playable_url");
      var url := AsText(if playable.Some? then playable else Lookup(members, "browser_native_hd_url"));
      if url.Some? && lib.isHttpUrl(url.value) then url else None
  }

  function MediaOf(lib: Library, members: seq<Member>, inAttachment: bool): Option<Item> {
    var kind := MediaKind(members);
    if !inAttachment || kind.None? then None
    else
      match MediaUrl(lib, members, kind.value)
      case None => None
      case Some(url) =>
        Some(Media(kind.value, url, MessageText(lib, Lookup(members, "accessibility_caption"))))
  }

  function Contributions(lib: Library, members: seq<Member>, inAttachment: bool): set<Item> {
    One(TimestampOf(members, "creation_time")) + One(TimestampOf(members, "publish_time"))
    + One(PermalinkOf(lib, members, "url")) + One(PermalinkOf(lib, members, "permalink_url"))
    + One(TextOf(lib, members, "message", 100)) + One(TextOf(lib, members, "message_context", 80))
    + One(TextOf(lib, members, "title", 50)) + One(TextOf(lib, members, "text", 40))
    + One(OutboundOf(lib, members, "external_url")) + One(OutboundOf(lib, members, "web_link"))
    + One(OutboundOf(lib, members, "href")) + One(OutboundOf(lib, members, "url"))
    + One(MediaOf(lib, members, inAttachment))
  }

  predicate IsAttachmentKey(key: string) {
    key == "attachments" || key == "attachment" || key == "media"
    || key == "all_subattachments" || key == "subattachments"
  }

  // ---- Visits -------------------------------------------------------------

  // A node with the id it inherits and whether it lies in an attachment.
  datatype Visit = Visit(node: Value, inherited: string, inAttachment: bool)

  // The id the object's contributions go to, if it has a plausible one.
  function TargetId(v: Visit): string {
    OwnId(v.node).GetOr(v.inherited)
  }

  function NextId(v: Visit): string {
    if Plausible(TargetId(v)) then TargetId(v) else v.inherited
  }

  function Arity(node: Value): nat {
    match node
    case Array(items) => |items|
    case Object(members) => |members|
    case Null => 0
    case Bool(_) => 0
    case Number(_) => 0
    case Float(_) => 0
    case String(_) => 0
  }

  function ChildOf(v: Visit, i: nat): Visit
    requires i < Arity(v.node)
  {
    if v.node.Array? then Visit(v.node.items[i], v.inherited, v.inAttachment)
    else
      var member := v.node.members[i];
      Visit(member.value, NextId(v), v.inAttachment || IsAttachmentKey(member.key))
  }

  function Recorded(lib: Library, acc: Accumulators, v: Visit): Accumulators {
    if v.node.Object? && Plausible(TargetId(v)) then
      var id := TargetId(v);
      acc[id := (if id in acc then acc[id] else {}) + Contributions(lib, v.node.members, v.inAttachment)]
    else acc
  }

  // ---- The walk -----------------------------------------------------------

  datatype Progress = Progress(accumulators: Accumulators, visited: nat)

  function Walk(lib: Library, p: Progress, v: Visit, depth: nat): Progress
    decreases MAX_JSON_DEPTH + 1 - depth, 0
  {
    if depth > MAX_JSON_DEPTH || p.visited >= MAX_JSON_NODES then p
    else WalkChildren(lib, Progress(Recorded(lib, p.accumulators, v), p.visited + 1), v, Arity(v.node), depth)
  }

  // The first `n` children, in order.
  function WalkChildren(lib: Library, p: Progress, v: Visit, n: nat, depth: nat): Progress
    requires n <= Arity(v.node) && depth <= MAX_JSON_DEPTH
    decreases MAX_JSON_DEPTH - depth, n + 1
  {
    if n == 0 then p
    else Walk(lib, WalkChildren(lib, p, v, n - 1, depth), ChildOf(v, n - 1), depth + 1)
  }

  class Walker {
    const lib: Library
    var accumulators: Accumulators
    var visited: nat

    constructor (lib: Library)
      ensures this.lib == lib && accumulators == map[] && visited == 0
    {
      this.lib := lib;
      accumulators, visited := map[], 0;
    }

    ghost function State(): Progress
      reads this
    {
      Progress(accumulators, visited)
    }

    method WalkGraph(node: Value, inheritedPostId: string, inAttachment: bool, depth: nat)
      modifies this
      ensures State() == Walk(lib, old(State()), Visit(node, inheritedPostId, inAttachment), depth)
      decreases MAX_JSON_DEPTH + 1 - depth
    {
      hide Contributions, StringValue, Walk, Plausible;
      ghost var v, p := Visit(node, inheritedPostId, inAttachment), State();
      WalkUnfolds(lib, p, v, depth);
      if depth > MAX_JSON_DEPTH || visited >= MAX_JSON_NODES {
        return;
      }
      visited := visited + 1;
      match node {
        case Array(items) =>
          ghost var start := State();
          for i := 0 to |items|
            invariant State() == WalkChildren(lib, start, v, i, depth)
          {
            WalkGraph(items[i], inheritedPostId, inAttachment, depth + 1);
          }
        case Object(members) =>
          var rawPostId := RawPostId(members);
          var postId := rawPostId.GetOr(inheritedPostId);
          var plausibleId := Plausible(postId);
          if plausibleId {
            var item := if postId in accumulators then accumulators[postId] else {};
            accumulators := accumulators[postId := item + Contributions(lib, members, inAttachment)];
          }
          var nextId := if plausibleId then postId else inheritedPostId;
          ghost var start := State();
          for i := 0 to |members|
            invariant State() == WalkChildren(lib, start, v, i, depth)
          {
            WalkGraph(members[i].value, nextId, inAttachment || IsAttachmentKey(members[i].key), depth + 1);
          }
        case Null =>
        case Bool(_) =>
        case Number(_) =>
        case Float(_) =>
        case String(_) =>
      }
    }
  }

  lemma WalkUnfolds(lib: Library, p: Progress, v: Visit, depth: nat)
    ensures Walk(lib, p, v, depth) ==
      if depth > MAX_JSON_DEPTH || p.visited >= MAX_JSON_NODES then p
      else WalkChildren(lib, Progress(Recorded(lib, p.accumulators, v), p.visited + 1), v, Arity(v.node), depth)
  {
  }

  // ---- All scripts of a page ----------------------------------------------

  // What the scripts that parse add up to; every script has its own node budget.
  function Gathered(lib: Library, parse: string -> Option<Value>, scripts: seq<string>): Accumulators {
    if scripts == [] then map[]
    else
      var before := Gathered(lib, parse, scripts[..|scripts| - 1]);
      match parse(scripts[|scripts| - 1])
      case None => before
      case Some(root) => Walk(lib, Progress(before, 0), Visit(root, "", false), 0).accumulators
  }

  function CountParsed(parse: string -> Option<Value>, scripts: seq<string>): nat {
    if scripts == [] then 0
    else CountParsed(parse, scripts[..|scripts| - 1]) + if parse(scripts[|scripts| - 1]).Some? then 1 else 0
  }

  method GatherPosts(lib: Library, parse: string -> Option<Value>, scripts: seq<string>)
    returns (accumulators: Accumulators, parsedCount: nat, malformedCount: nat)
    ensures accumulators == Gathered(lib, parse, scripts)
    ensures parsedCount == CountParsed(parse, scripts) && parsedCount + malformedCount == |scripts|
  {
    hide Walk;
    var walker := new Walker(lib);
    parsedCount, malformedCount := 0, 0;
    for i := 0 to |scripts|
      invariant fresh(walker) && walker.lib == lib
      invariant walker.accumulators == Gathered(lib, parse, scripts[..i])
      invariant parsedCount == CountParsed(parse, scripts[..i]) && parsedCount + malformedCount == i
    {
      assert scripts[..i + 1][..i] == scripts[..i];
      match parse(scripts[i]) {
        case Some(root) =>
          parsedCount := parsedCount + 1;
          walker.visited := 0;
          walker.WalkGraph(root, "", false, 0);
        case None =>
          malformedCount := malformedCount + 1;
      }
    }
    assert scripts[..|scripts|] == scripts;
    accumulators := walker.accumulators;
  }
}
