// The order of array elements, anywhere in a script, has no influence on what
// the walk gathers.
module GraphOrder {
  import opened Prelude
  import opened Json
  import opened GraphWalk
  import opened GraphMeaning

  // `b` is `a` with the elements of arrays reordered, repeated or added to, at
  // any depth.
  predicate Within(a: Value, b: Value)
    decreases a, 1
  {
    match a
    case Array(_) => b.Array? && AllMatch(a, b, |a.items|)
    case Object(m) =>
      b.Object? && |m| == |b.members|
      && forall i :: 0 <= i < |m| ==> m[i].key == b.members[i].key && Within(m[i].value, b.members[i].value)
    case Null => a == b
    case Bool(_) => a == b
    case Number(_) => a == b
    case Float(_) => a == b
    case String(_) => a == b
  }

  // The first n elements of array `a` have counterparts in array `b`.
  predicate AllMatch(a: Value, b: Value, n: nat)
    requires a.Array? && b.Array? && n <= |a.items|
    decreases a, 0, n
  {
    n == 0 || (AllMatch(a, b, n - 1) && HasMatch(a.items[n - 1], b, |b.items|))
  }

  predicate HasMatch(v: Value, b: Value, n: nat)
    requires b.Array? && n <= |b.items|
    decreases v, 2, n
  {
    n > 0 && (Within(v, b.items[n - 1]) || HasMatch(v, b, n - 1))
  }

  predicate SameMembers(m: seq<Member>, n: seq<Member>) {
    |m| == |n| && forall i :: 0 <= i < |m| ==> m[i].key == n[i].key && Within(m[i].value, n[i].value)
  }

  predicate SameOption(a: Option<Value>, b: Option<Value>) {
    a.Some? == b.Some? && (a.Some? ==> Within(a.value, b.value))
  }

  lemma {:induction false} Counterpart(v: Value, b: Value, n: nat) returns (j: nat)
    requires b.Array? && n <= |b.items| && HasMatch(v, b, n)
    ensures j < n && Within(v, b.items[j])
    decreases n
  {
    hide Within;
    if Within(v, b.items[n - 1]) { j := n - 1; } else { j := Counterpart(v, b, n - 1); }
  }

  lemma {:induction false} ElementMatches(a: Value, b: Value, n: nat, i: nat)
    requires a.Array? && b.Array? && i < n <= |a.items| && AllMatch(a, b, n)
    ensures HasMatch(a.items[i], b, |b.items|)
    decreases n
  {
    hide HasMatch;
    if i < n - 1 { ElementMatches(a, b, n - 1, i); }
  }

  // ---- What an object contributes -----------------------------------------

  lemma {:induction false} LookupSame(m: seq<Member>, n: seq<Member>, key: string)
    requires SameMembers(m, n)
    ensures SameOption(Lookup(m, key), Lookup(n, key))
  {
    hide Within;
    if m != [] && m[0].key != key { LookupSame(m[1..], n[1..], key); }
  }

  lemma ScalarsSame(a: Option<Value>, b: Option<Value>)
    requires SameOption(a, b)
    ensures AsText(a) == AsText(b) && AsI64(a) == AsI64(b) && StringValue(a) == StringValue(b)
  {
  }

  lemma GetSame(a: Option<Value>, b: Option<Value>, key: string)
    requires SameOption(a, b)
    ensures SameOption(Get(a, key), Get(b, key))
  {
    hide Lookup;
    if a.Some? && a.value.Object? { LookupSame(a.value.members, b.value.members, key); }
  }

  lemma TextSame(lib: Library, a: Option<Value>, b: Option<Value>)
    requires SameOption(a, b)
    ensures MessageText(lib, a) == MessageText(lib, b)
  {
    GetSame(a, b, "text");
    ScalarsSame(a, b);
    ScalarsSame(Get(a, "text"), Get(b, "text"));
    hide AsText, Get;
  }

  lemma FieldsSame(lib: Library, m: seq<Member>, n: seq<Member>, key: string)
    requires SameMembers(m, n)
    ensures AsText(Lookup(m, key)) == AsText(Lookup(n, key)) && AsI64(Lookup(m, key)) == AsI64(Lookup(n, key))
    ensures StringValue(Lookup(m, key)) == StringValue(Lookup(n, key))
    ensures Lookup(m, key).Some? == Lookup(n, key).Some?
    ensures MessageText(lib, Lookup(m, key)) == MessageText(lib, Lookup(n, key))
  {
    hide Within, Lookup, AsText, AsI64, StringValue, MessageText;
    LookupSame(m, n, key);
    ScalarsSame(Lookup(m, key), Lookup(n, key));
    TextSame(lib, Lookup(m, key), Lookup(n, key));
  }

  lemma {:induction false} FollowSame(a: Value, b: Value, path: seq<string>)
    requires Within(a, b)
    ensures SameOption(Follow(a, path), Follow(b, path))
    decreases |path|
  {
    hide Within, Get;
    if path != [] {
      GetSame(Some(a), Some(b), path[0]);
      var x, y := Get(Some(a), path[0]), Get(Some(b), path[0]);
      if x.Some? { FollowSame(x.value, y.value, path[1..]); }
    }
  }

  lemma {:induction false} UriSame(lib: Library, a: Value, b: Value, paths: seq<seq<string>>)
    requires Within(a, b)
    ensures NestedUri(lib, a, paths) == NestedUri(lib, b, paths)
  {
    hide Within, Follow, AsText, Unslash;
    if paths != [] {
      FollowSame(a, b, paths[0]);
      ScalarsSame(Follow(a, paths[0]), Follow(b, paths[0]));
      UriSame(lib, a, b, paths[1..]);
    }
  }

  lemma MediaSame(lib: Library, m: seq<Member>, n: seq<Member>, inAttachment: bool)
    requires SameMembers(m, n)
    ensures MediaOf(lib, m, inAttachment) == MediaOf(lib, n, inAttachment)
  {
    hide Lookup, AsText, AsI64, StringValue, MessageText, NestedUri, SameMembers;
    assert Within(Object(m), Object(n)) by { ObjectsSame(m, n); }
    UriSame(lib, Object(m), Object(n), URI_PATHS);
    FieldsSame(lib, m, n, "__typename");
    FieldsSame(lib, m, n, "media_type");
    FieldsSame(lib, m, n, "playable_url");
    FieldsSame(lib, m, n, "browser_native_hd_url");
    FieldsSame(lib, m, n, "accessibility_caption");
    hide Within;
  }

  lemma ObjectsSame(m: seq<Member>, n: seq<Member>)
    requires SameMembers(m, n)
    ensures Within(Object(m), Object(n))
  {
  }

  lemma PartsSame(lib: Library, m: seq<Member>, n: seq<Member>, key: string, score: nat)
    requires SameMembers(m, n)
    ensures TimestampOf(m, key) == TimestampOf(n, key)
    ensures PermalinkOf(lib, m, key) == PermalinkOf(lib, n, key)
    ensures OutboundOf(lib, m, key) == OutboundOf(lib, n, key)
    ensures TextOf(lib, m, key, score) == TextOf(lib, n, key, score)
  {
    hide Lookup, AsText, AsI64, StringValue, MessageText, SameMembers, Within, LooksLikePost;
    FieldsSame(lib, m, n, key);
  }

  lemma ContributionsSame(lib: Library, m: seq<Member>, n: seq<Member>, inAttachment: bool)
    requires SameMembers(m, n)
    ensures Contributions(lib, m, inAttachment) == Contributions(lib, n, inAttachment)
  {
    hide TimestampOf, PermalinkOf, OutboundOf, TextOf, MediaOf, SameMembers, One;
    PartsSame(lib, m, n, "creation_time", 0);
    PartsSame(lib, m, n, "publish_time", 0);
    PartsSame(lib, m, n, "url", 0);
    PartsSame(lib, m, n, "permalink_url", 0);
    PartsSame(lib, m, n, "message", 100);
    PartsSame(lib, m, n, "message_context", 80);
    PartsSame(lib, m, n, "title", 50);
    PartsSame(lib, m, n, "text", 40);
    PartsSame(lib, m, n, "external_url", 0);
    PartsSame(lib, m, n, "web_link", 0);
    PartsSame(lib, m, n, "href", 0);
    MediaSame(lib, m, n, inAttachment);
  }

  // ---- Paths --------------------------------------------------------------

  predicate SameVisit(v: Visit, w: Visit) {
    Within(v.node, w.node) && v.inherited == w.inherited && v.inAttachment == w.inAttachment
  }

  lemma OwnIdSame(lib: Library, a: Value, b: Value)
    requires Within(a, b)
    ensures OwnId(a) == OwnId(b) && a.Object? == b.Object?
  {
    hide StringValue, Lookup, AsText, AsI64, MessageText;
    if a.Object? {
      assert SameMembers(a.members, b.members);
      FieldsSame(lib, a.members, b.members, "post_id");
      FieldsSame(lib, a.members, b.members, "top_level_post_id");
    }
  }

  lemma AddsSame(lib: Library, v: Visit, w: Visit, id: string, item: Item)
    requires SameVisit(v, w)
    ensures Targets(v, id) <==> Targets(w, id)
    ensures Adds(lib, v, id, item) <==> Adds(lib, w, id, item)
  {
    hide OwnId, Contributions, Plausible;
    OwnIdSame(lib, v.node, w.node);
    if v.node.Object? { ContributionsSame(lib, v.node.members, w.node.members, v.inAttachment); }
  }

  lemma ChildSame(lib: Library, v: Visit, w: Visit, i: nat) returns (j: nat)
    requires SameVisit(v, w) && i < Arity(v.node)
    ensures j < Arity(w.node) && SameVisit(ChildOf(v, i), ChildOf(w, j))
  {
    hide OwnId, Plausible, AllMatch, HasMatch;
    OwnIdSame(lib, v.node, w.node);
    if v.node.Array? {
      ElementMatches(v.node, w.node, |v.node.items|, i);
      j := Counterpart(v.node.items[i], w.node, |w.node.items|);
    } else {
      j := i;
    }
  }

  lemma {:induction false} PathSame(lib: Library, v: Visit, w: Visit, path: seq<nat>) returns (other: seq<nat>)
    requires SameVisit(v, w) && VisitAt(v, path).Some?
    ensures |other| == |path| && VisitAt(w, other).Some?
    ensures SameVisit(VisitAt(v, path).value, VisitAt(w, other).value)
    decreases |path|
  {
    hide SameVisit, ChildOf, Arity;
    if path == [] {
      other := [];
    } else {
      var front := PathSame(lib, v, w, path[..|path| - 1]);
      var j := ChildSame(lib, VisitAt(v, path[..|path| - 1]).value, VisitAt(w, front).value, path[|path| - 1]);
      other := front + [j];
      assert other[..|other| - 1] == front;
    }
  }

  lemma GiverSame(lib: Library, a: Value, b: Value, id: string, item: Item)
    requires Within(a, b)
    ensures SomeContributor(a, id) ==> SomeContributor(b, id)
    ensures SomeGiver(lib, a, id, item) ==> SomeGiver(lib, b, id, item)
  {
    hide Within, Contributes, Gives, Targets, Adds, VisitAt;
    var v, w := Visit(a, "", false), Visit(b, "", false);
    forall path | Contributes(a, path, id)
      ensures SomeContributor(b, id) && (Gives(lib, a, path, id, item) ==> SomeGiver(lib, b, id, item))
    {
      ContributorVisited(a, path, id);
      var other := PathSame(lib, v, w, path);
      AddsSame(lib, VisitAt(v, path).value, VisitAt(w, other).value, id, item);
      TargetMeaning(a, path, id);
      TargetMeaning(b, other, id);
      AddsMeaning(lib, a, path, id, item);
      AddsMeaning(lib, b, other, id, item);
    }
    forall path | Gives(lib, a, path, id, item) ensures Contributes(a, path, id) {
      GiverContributes(lib, a, path, id, item);
    }
  }

  // Two scripts that differ only in the order and repetition of array elements,
  // both within the node limit, give the same accumulators.
  lemma {:induction false} OrderIrrelevant(lib: Library, acc: Accumulators, a: Value, b: Value, id: string, item: Item)
    requires Within(a, b) && Within(b, a) && Nodes(a, 0) <= MAX_JSON_NODES && Nodes(b, 0) <= MAX_JSON_NODES
    ensures var p := Walk(lib, Progress(acc, 0), Visit(a, "", false), 0).accumulators;
      var q := Walk(lib, Progress(acc, 0), Visit(b, "", false), 0).accumulators;
      (id in p <==> id in q) && (Holds(p, id, item) <==> Holds(q, id, item))
  {
    hide Within, Walk, Nodes, Holds, SomeContributor, SomeGiver;
    WalkMeaning(lib, acc, a, id, item);
    WalkMeaning(lib, acc, b, id, item);
    GiverSame(lib, a, b, id, item);
    GiverSame(lib, b, a, id, item);
  }
}
