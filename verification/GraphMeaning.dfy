// What the walk gathers, said without the walk: every object on a path of at
// most 128 steps contributes to the nearest plausible id on that path.
module GraphMeaning {
  import opened Prelude
  import opened Json
  import opened GraphWalk

  // ---- The walk visits a prefix of the preorder ---------------------------

  function Preorder(v: Visit, depth: nat): seq<Visit>
    decreases MAX_JSON_DEPTH + 1 - depth, 0
  {
    if depth > MAX_JSON_DEPTH then [] else [v] + PreorderChildren(v, Arity(v.node), depth)
  }

  function PreorderChildren(v: Visit, n: nat, depth: nat): seq<Visit>
    requires n <= Arity(v.node) && depth <= MAX_JSON_DEPTH
    decreases MAX_JSON_DEPTH - depth, n + 1
  {
    if n == 0 then [] else PreorderChildren(v, n - 1, depth) + Preorder(ChildOf(v, n - 1), depth + 1)
  }

  function RecordAll(lib: Library, acc: Accumulators, visits: seq<Visit>): Accumulators {
    if visits == [] then acc
    else Recorded(lib, RecordAll(lib, acc, visits[..|visits| - 1]), visits[|visits| - 1])
  }

  // Recording as many of the visits as the node budget still allows.
  function Budgeted(visited: nat, visits: seq<Visit>): nat {
    if visited >= MAX_JSON_NODES then 0
    else if |visits| <= MAX_JSON_NODES - visited then |visits|
    else MAX_JSON_NODES - visited
  }

  function Taken(lib: Library, p: Progress, visits: seq<Visit>): Progress {
    var k := Budgeted(p.visited, visits);
    Progress(RecordAll(lib, p.accumulators, visits[..k]), p.visited + k)
  }

  lemma {:induction false} RecordAppend(lib: Library, acc: Accumulators, a: seq<Visit>, b: seq<Visit>)
    ensures RecordAll(lib, acc, a + b) == RecordAll(lib, RecordAll(lib, acc, a), b)
  {
    hide Recorded;
    if b != [] {
      assert (a + b)[..|a + b| - 1] == a + b[..|b| - 1];
      RecordAppend(lib, acc, a, b[..|b| - 1]);
    } else {
      assert a + b == a;
    }
  }

  lemma TakenAppend(lib: Library, p: Progress, a: seq<Visit>, b: seq<Visit>)
    ensures Taken(lib, p, a + b) == Taken(lib, Taken(lib, p, a), b)
  {
    hide RecordAll;
    var j, k := Budgeted(p.visited, a), Budgeted(p.visited, a + b);
    var i := Budgeted(p.visited + j, b);
    RecordAppend(lib, p.accumulators, a[..j], b[..i]);
    assert (a + b)[..k] == a[..j] + b[..i];
  }

  lemma TakenOne(lib: Library, p: Progress, v: Visit)
    requires p.visited < MAX_JSON_NODES
    ensures Taken(lib, p, [v]) == Progress(Recorded(lib, p.accumulators, v), p.visited + 1)
  {
    hide Recorded;
    assert [v][..1] == [v] && [v][..0] == [];
    assert RecordAll(lib, p.accumulators, [v][..0]) == p.accumulators;
  }

  lemma TakenNone(lib: Library, p: Progress, visits: seq<Visit>)
    requires visits == [] || p.visited >= MAX_JSON_NODES
    ensures Taken(lib, p, visits) == p
  {
  }

  lemma {:induction false} WalkTakes(lib: Library, p: Progress, v: Visit, depth: nat)
    ensures Walk(lib, p, v, depth) == Taken(lib, p, Preorder(v, depth))
    decreases MAX_JSON_DEPTH + 1 - depth, 0
  {
    hide Recorded, Taken, Walk;
    WalkUnfolds(lib, p, v, depth);
    if depth > MAX_JSON_DEPTH || p.visited >= MAX_JSON_NODES {
      TakenNone(lib, p, Preorder(v, depth));
    } else {
      var first := Progress(Recorded(lib, p.accumulators, v), p.visited + 1);
      TakenOne(lib, p, v);
      WalkChildrenTakes(lib, first, v, Arity(v.node), depth);
      TakenAppend(lib, p, [v], PreorderChildren(v, Arity(v.node), depth));
    }
  }

  lemma {:induction false} WalkChildrenTakes(lib: Library, p: Progress, v: Visit, n: nat, depth: nat)
    requires n <= Arity(v.node) && depth <= MAX_JSON_DEPTH
    ensures WalkChildren(lib, p, v, n, depth) == Taken(lib, p, PreorderChildren(v, n, depth))
    decreases MAX_JSON_DEPTH - depth, n + 1
  {
    hide Recorded, Taken, Walk, Preorder, ChildOf;
    if n == 0 {
      TakenNone(lib, p, []);
    } else {
      var child := ChildOf(v, n - 1);
      WalkChildrenTakes(lib, p, v, n - 1, depth);
      WalkTakes(lib, WalkChildren(lib, p, v, n - 1, depth), child, depth + 1);
      TakenAppend(lib, p, PreorderChildren(v, n - 1, depth), Preorder(child, depth + 1));
    }
  }

  // ---- Paths --------------------------------------------------------------

  // The visit reached by taking the children with these indices, if they exist.
  function VisitAt(v: Visit, path: seq<nat>): Option<Visit> {
    if path == [] then Some(v)
    else
      var last := |path| - 1;
      match VisitAt(v, path[..last])
      case None => None
      case Some(u) => if path[last] < Arity(u.node) then Some(ChildOf(u, path[last])) else None
  }

  lemma {:induction false} VisitAtStep(v: Visit, i: nat, path: seq<nat>)
    ensures VisitAt(v, [i] + path) == if i < Arity(v.node) then VisitAt(ChildOf(v, i), path) else None
  {
    hide ChildOf, Arity;
    var whole, last := [i] + path, |path|;
    if path == [] {
      assert whole[..last] == [];
      assert VisitAt(v, whole[..last]) == Some(v);
    } else {
      assert whole[..last] == [i] + path[..last - 1];
      VisitAtStep(v, i, path[..last - 1]);
    }
  }

  // The preorder holds exactly the visits at the end of short enough paths.
  lemma {:induction false} PreorderHasPath(v: Visit, depth: nat, w: Visit) returns (path: seq<nat>)
    requires w in Preorder(v, depth)
    ensures VisitAt(v, path) == Some(w) && |path| + depth <= MAX_JSON_DEPTH
    decreases MAX_JSON_DEPTH + 1 - depth, 0
  {
    hide ChildOf, Arity;
    if w == v {
      path := [];
    } else {
      path := ChildrenHavePath(v, Arity(v.node), depth, w);
    }
  }

  lemma {:induction false} ChildrenHavePath(v: Visit, n: nat, depth: nat, w: Visit) returns (path: seq<nat>)
    requires n <= Arity(v.node) && depth <= MAX_JSON_DEPTH
    requires w in PreorderChildren(v, n, depth)
    ensures VisitAt(v, path) == Some(w) && |path| + depth <= MAX_JSON_DEPTH
    decreases MAX_JSON_DEPTH - depth, n + 1
  {
    hide ChildOf, Arity, VisitAt, Preorder;
    if w in PreorderChildren(v, n - 1, depth) {
      path := ChildrenHavePath(v, n - 1, depth, w);
    } else {
      var rest := PreorderHasPath(ChildOf(v, n - 1), depth + 1, w);
      VisitAtStep(v, n - 1, rest);
      path := [n - 1] + rest;
    }
  }

  lemma {:induction false} PathInPreorder(v: Visit, depth: nat, path: seq<nat>)
    requires VisitAt(v, path).Some? && |path| + depth <= MAX_JSON_DEPTH
    ensures VisitAt(v, path).value in Preorder(v, depth)
    decreases |path|
  {
    hide ChildOf, Arity, PreorderChildren;
    if path != [] {
      var i, rest := path[0], path[1..];
      assert path == [i] + rest;
      VisitAtStep(v, i, rest);
      PathInPreorder(ChildOf(v, i), depth + 1, rest);
      ChildIncluded(v, Arity(v.node), depth, i, VisitAt(v, path).value);
    }
  }

  lemma {:induction false} ChildIncluded(v: Visit, n: nat, depth: nat, i: nat, w: Visit)
    requires i < n <= Arity(v.node) && depth <= MAX_JSON_DEPTH
    requires w in Preorder(ChildOf(v, i), depth + 1)
    ensures w in PreorderChildren(v, n, depth)
    decreases n
  {
    hide ChildOf, Arity, Preorder;
    if i < n - 1 { ChildIncluded(v, n - 1, depth, i, w); }
  }

  // ---- The nearest id -----------------------------------------------------

  function NodeAt(node: Value, path: seq<nat>): Option<Value> {
    if path == [] then Some(node)
    else
      var last := |path| - 1;
      match NodeAt(node, path[..last])
      case None => None
      case Some(Array(items)) => if path[last] < |items| then Some(items[path[last]]) else None
      case Some(Object(members)) => if path[last] < |members| then Some(members[path[last]].value) else None
      case Some(Null) => None
      case Some(Bool(_)) => None
      case Some(Number(_)) => None
      case Some(Float(_)) => None
      case Some(String(_)) => None
  }

  function OwnIdAt(node: Value, path: seq<nat>): Option<string> {
    var at := NodeAt(node, path);
    if at.Some? then OwnId(at.value) else None
  }

  // The plausible id found first going up from the end of the path.
  function NearestId(node: Value, path: seq<nat>): Option<string> {
    var own := OwnIdAt(node, path);
    if own.Some? && Plausible(own.value) then own
    else if path == [] then None
    else NearestId(node, path[..|path| - 1])
  }

  // Some key on the path is an attachment key.
  predicate InAttachment(node: Value, path: seq<nat>) {
    if path == [] then false
    else
      var last := |path| - 1;
      var parent := NodeAt(node, path[..last]);
      InAttachment(node, path[..last])
      || (parent.Some? && parent.value.Object? && path[last] < |parent.value.members|
          && IsAttachmentKey(parent.value.members[path[last]].key))
  }

  lemma ChildNode(node: Value, path: seq<nat>)
    requires path != []
    ensures NodeAt(node, path) ==
      match NodeAt(node, path[..|path| - 1])
      case None => None
      case Some(u) =>
        if path[|path| - 1] < Arity(u) then Some(ChildOf(Visit(u, "", false), path[|path| - 1]).node) else None
  {
  }

  // What the walk carries down agrees with what is found going up.
  lemma {:induction false} VisitMeaning(node: Value, path: seq<nat>)
    ensures VisitAt(Visit(node, "", false), path).Some? <==> NodeAt(node, path).Some?
    ensures match VisitAt(Visit(node, "", false), path)
      case None => true
      case Some(w) =>
        w.node == NodeAt(node, path).value && w.inAttachment == InAttachment(node, path)
        && NextId(w) == NearestId(node, path).GetOr("")
        && (w.inherited == "" || Plausible(w.inherited))
        && w.inherited == (if path == [] then "" else NearestId(node, path[..|path| - 1]).GetOr(""))
  {
    hide RawPostId, Plausible, IsAttachmentKey, NodeAt;
    if path == [] {
      assert NodeAt(node, path) == Some(node) by { RootNode(node); }
      assert !Plausible("") by { EmptyImplausible(); }
    } else {
      VisitMeaning(node, path[..|path| - 1]);
      ChildNode(node, path);
      EmptyImplausible();
    }
  }

  lemma RootNode(node: Value)
    ensures NodeAt(node, []) == Some(node)
  {
  }

  lemma EmptyImplausible()
    ensures !Plausible("")
  {
  }

  // ---- Contributions ------------------------------------------------------

  // The object at the path contributes to the post `id`: its own id is missing
  // or plausible, and `id` is the nearest.
  predicate Contributes(node: Value, path: seq<nat>, id: string) {
    && |path| <= MAX_JSON_DEPTH
    && NodeAt(node, path).Some? && NodeAt(node, path).value.Object?
    && (OwnIdAt(node, path).Some? ==> Plausible(OwnIdAt(node, path).value))
    && NearestId(node, path) == Some(id)
  }

  predicate Gives(lib: Library, node: Value, path: seq<nat>, id: string, item: Item) {
    Contributes(node, path, id)
    && item in Contributions(lib, NodeAt(node, path).value.members, InAttachment(node, path))
  }

  predicate Targets(v: Visit, id: string) {
    v.node.Object? && Plausible(TargetId(v)) && TargetId(v) == id
  }

  predicate Adds(lib: Library, v: Visit, id: string, item: Item) {
    Targets(v, id) && item in Contributions(lib, v.node.members, v.inAttachment)
  }

  predicate Holds(acc: Accumulators, id: string, item: Item) {
    id in acc && item in acc[id]
  }

  lemma {:induction false} NearestPlausible(node: Value, path: seq<nat>)
    ensures NearestId(node, path).Some? ==> Plausible(NearestId(node, path).value)
    decreases |path|
  {
    hide Plausible, OwnIdAt;
    if path != [] { NearestPlausible(node, path[..|path| - 1]); }
  }

  lemma TargetMeaning(node: Value, path: seq<nat>, id: string)
    requires VisitAt(Visit(node, "", false), path).Some? && |path| <= MAX_JSON_DEPTH
    ensures Targets(VisitAt(Visit(node, "", false), path).value, id) <==> Contributes(node, path, id)
  {
    hide RawPostId, Plausible, NodeAt, InAttachment, VisitAt;
    VisitMeaning(node, path);
    EmptyImplausible();
    if path != [] { NearestPlausible(node, path[..|path| - 1]); }
  }

  lemma AddsMeaning(lib: Library, node: Value, path: seq<nat>, id: string, item: Item)
    requires VisitAt(Visit(node, "", false), path).Some? && |path| <= MAX_JSON_DEPTH
    ensures Adds(lib, VisitAt(Visit(node, "", false), path).value, id, item) <==> Gives(lib, node, path, id, item)
  {
    hide TargetId, Plausible, NodeAt, InAttachment, VisitAt, Contributions, Contributes, Targets;
    VisitMeaning(node, path);
    TargetMeaning(node, path, id);
    assert Contributes(node, path, id) ==> NodeAt(node, path).value.Object? by { ContributorIsObject(node, path, id); }
    var w := VisitAt(Visit(node, "", false), path).value;
    assert Targets(w, id) ==> w.node.Object? by { TargetIsObject(w, id); }
  }

  lemma ContributorIsObject(node: Value, path: seq<nat>, id: string)
    ensures Contributes(node, path, id) ==> NodeAt(node, path).Some? && NodeAt(node, path).value.Object?
  {
  }

  lemma TargetIsObject(v: Visit, id: string)
    ensures Targets(v, id) ==> v.node.Object?
  {
  }

  lemma RecordOne(lib: Library, acc: Accumulators, v: Visit, id: string, item: Item)
    ensures id in Recorded(lib, acc, v) <==> id in acc || Targets(v, id)
    ensures Holds(Recorded(lib, acc, v), id, item) <==> Holds(acc, id, item) || Adds(lib, v, id, item)
  {
  }

  lemma {:induction false} RecordMeaning(lib: Library, acc: Accumulators, visits: seq<Visit>, id: string, item: Item)
    ensures id in RecordAll(lib, acc, visits) <==> id in acc || exists v :: v in visits && Targets(v, id)
    ensures Holds(RecordAll(lib, acc, visits), id, item) <==>
      Holds(acc, id, item) || exists v :: v in visits && Adds(lib, v, id, item)
  {
    hide Recorded, Targets, Adds, Holds;
    if visits != [] {
      var front, last := visits[..|visits| - 1], visits[|visits| - 1];
      RecordMeaning(lib, acc, front, id, item);
      RecordOne(lib, RecordAll(lib, acc, front), last, id, item);
      assert visits == front + [last];
      assert forall v :: v in visits <==> v in front || v == last;
    }
  }

  // ---- Counting -----------------------------------------------------------

  function Child(node: Value, i: nat): Value
    requires i < Arity(node)
  {
    if node.Array? then node.items[i] else node.members[i].value
  }

  // Nodes at depth at most 128, counting from `depth`.
  function Nodes(node: Value, depth: nat): nat
    decreases MAX_JSON_DEPTH + 1 - depth, 0
  {
    if depth > MAX_JSON_DEPTH then 0 else 1 + NodesBelow(node, Arity(node), depth)
  }

  function NodesBelow(node: Value, n: nat, depth: nat): nat
    requires n <= Arity(node) && depth <= MAX_JSON_DEPTH
    decreases MAX_JSON_DEPTH - depth, n + 1
  {
    if n == 0 then 0 else NodesBelow(node, n - 1, depth) + Nodes(Child(node, n - 1), depth + 1)
  }

  lemma {:induction false} PreorderCount(v: Visit, depth: nat)
    ensures |Preorder(v, depth)| == Nodes(v.node, depth)
    decreases MAX_JSON_DEPTH + 1 - depth, 0
  {
    hide ChildOf, Child, Arity, NodesBelow, PreorderChildren;
    if depth <= MAX_JSON_DEPTH { ChildrenCount(v, Arity(v.node), depth); }
  }

  lemma {:induction false} ChildrenCount(v: Visit, n: nat, depth: nat)
    requires n <= Arity(v.node) && depth <= MAX_JSON_DEPTH
    ensures |PreorderChildren(v, n, depth)| == NodesBelow(v.node, n, depth)
    decreases MAX_JSON_DEPTH - depth, n + 1
  {
    hide Preorder, Nodes, NextId, IsAttachmentKey;
    if n > 0 {
      ChildrenCount(v, n - 1, depth);
      PreorderCount(ChildOf(v, n - 1), depth + 1);
    }
  }

  // ---- The meaning of the walk --------------------------------------------

  ghost predicate SomeContributor(node: Value, id: string) {
    exists path :: Contributes(node, path, id)
  }

  ghost predicate SomeGiver(lib: Library, node: Value, id: string, item: Item) {
    exists path :: Gives(lib, node, path, id, item)
  }

  lemma VisitsContribute(lib: Library, node: Value, id: string, item: Item)
    ensures (exists v :: v in Preorder(Visit(node, "", false), 0) && Targets(v, id)) <==> SomeContributor(node, id)
    ensures (exists v :: v in Preorder(Visit(node, "", false), 0) && Adds(lib, v, id, item))
            <==> SomeGiver(lib, node, id, item)
  {
    hide Targets, Adds, Contributes, Gives, Preorder, VisitAt, NodeAt;
    var root := Visit(node, "", false);
    forall v | v in Preorder(root, 0)
      ensures Targets(v, id) ==> SomeContributor(node, id)
      ensures Adds(lib, v, id, item) ==> SomeGiver(lib, node, id, item)
    {
      var path := PreorderHasPath(root, 0, v);
      TargetMeaning(node, path, id);
      AddsMeaning(lib, node, path, id, item);
    }
    forall path | Contributes(node, path, id)
      ensures exists v :: v in Preorder(root, 0) && Targets(v, id)
    {
      ContributorVisited(node, path, id);
      TargetMeaning(node, path, id);
    }
    forall path | Gives(lib, node, path, id, item)
      ensures exists v :: v in Preorder(root, 0) && Adds(lib, v, id, item)
    {
      GiverContributes(lib, node, path, id, item);
      ContributorVisited(node, path, id);
      AddsMeaning(lib, node, path, id, item);
    }
  }

  lemma GiverContributes(lib: Library, node: Value, path: seq<nat>, id: string, item: Item)
    ensures Gives(lib, node, path, id, item) ==> Contributes(node, path, id)
  {
  }

  lemma ContributorVisited(node: Value, path: seq<nat>, id: string)
    requires Contributes(node, path, id)
    ensures |path| <= MAX_JSON_DEPTH && VisitAt(Visit(node, "", false), path).Some?
    ensures VisitAt(Visit(node, "", false), path).value in Preorder(Visit(node, "", false), 0)
  {
    hide NodeAt, NearestId, OwnIdAt, Preorder, VisitAt;
    VisitMeaning(node, path);
    PathInPreorder(Visit(node, "", false), 0, path);
  }

  // One script walked from its root. The walk visits every node within depth
  // 128 until 200,000 have been visited, and what it adds to the accumulators
  // always comes from an object and its nearest id; when the nodes within depth
  // number no more than that, it adds exactly what all of them give.
  lemma {:induction false} WalkMeaning(lib: Library, acc: Accumulators, node: Value, id: string, item: Item)
    ensures var p := Walk(lib, Progress(acc, 0), Visit(node, "", false), 0);
      && p.visited == (if Nodes(node, 0) <= MAX_JSON_NODES then Nodes(node, 0) else MAX_JSON_NODES)
      && (id in p.accumulators ==> id in acc || SomeContributor(node, id))
      && (Holds(p.accumulators, id, item) ==> Holds(acc, id, item) || SomeGiver(lib, node, id, item))
      && (id in acc ==> id in p.accumulators)
      && (Holds(acc, id, item) ==> Holds(p.accumulators, id, item))
      && (Nodes(node, 0) <= MAX_JSON_NODES ==>
        (id in p.accumulators <==> id in acc || SomeContributor(node, id))
        && (Holds(p.accumulators, id, item) <==> Holds(acc, id, item) || SomeGiver(lib, node, id, item)))
  {
    hide Walk, Preorder, RecordAll, Holds, SomeContributor, SomeGiver, Targets, Adds, Nodes;
    var root := Visit(node, "", false);
    var visits := Preorder(root, 0);
    WalkTakes(lib, Progress(acc, 0), root, 0);
    PreorderCount(root, 0);
    var k := Budgeted(0, visits);
    assert k == |visits| ==> visits[..k] == visits;
    RecordMeaning(lib, acc, visits[..k], id, item);
    VisitsContribute(lib, node, id, item);
    assert forall v :: v in visits[..k] ==> v in visits;
  }

  // A node's own implausible id keeps it out, and passes the outer id on.
  lemma {:induction false} ImplausibleId(node: Value, path: seq<nat>, id: string)
    requires OwnIdAt(node, path).Some? && !Plausible(OwnIdAt(node, path).value)
    ensures !Contributes(node, path, id)
    ensures NearestId(node, path) == if path == [] then None else NearestId(node, path[..|path| - 1])
  {
  }

  // ---- All scripts of a page ----------------------------------------------

  ghost predicate PageGives(lib: Library, parse: string -> Option<Value>, scripts: seq<string>,
                            id: string, item: Item)
  {
    exists s :: s in scripts && parse(s).Some? && SomeGiver(lib, parse(s).value, id, item)
  }

  predicate WithinLimits(parse: string -> Option<Value>, scripts: seq<string>) {
    forall s :: s in scripts && parse(s).Some? ==> Nodes(parse(s).value, 0) <= MAX_JSON_NODES
  }

  // What a page's scripts add up to, in whatever order they come.
  lemma {:induction false} GatheredMeaning(lib: Library, parse: string -> Option<Value>, scripts: seq<string>,
                                           id: string, item: Item)
    ensures Holds(Gathered(lib, parse, scripts), id, item) ==> PageGives(lib, parse, scripts, id, item)
    ensures WithinLimits(parse, scripts) ==>
      (Holds(Gathered(lib, parse, scripts), id, item) <==> PageGives(lib, parse, scripts, id, item))
  {
    hide Walk, Nodes, SomeGiver, SomeContributor;
    if scripts != [] {
      var front, last := scripts[..|scripts| - 1], scripts[|scripts| - 1];
      GatheredMeaning(lib, parse, front, id, item);
      assert forall s :: s in scripts <==> s in front || s == last by { assert scripts == front + [last]; }
      if parse(last).Some? { WalkMeaning(lib, Gathered(lib, parse, front), parse(last).value, id, item); }
    }
  }

  // A script within the limits gives all it has, whatever the others do.
  lemma {:induction false} ScriptGathered(lib: Library, parse: string -> Option<Value>, scripts: seq<string>, i: nat,
                                          id: string, item: Item)
    requires i < |scripts| && parse(scripts[i]).Some?
    requires Nodes(parse(scripts[i]).value, 0) <= MAX_JSON_NODES
    requires SomeGiver(lib, parse(scripts[i]).value, id, item)
    ensures Holds(Gathered(lib, parse, scripts), id, item)
  {
    hide Walk, Nodes, SomeGiver, SomeContributor, Holds;
    var front, last := scripts[..|scripts| - 1], scripts[|scripts| - 1];
    if i < |scripts| - 1 { ScriptGathered(lib, parse, front, i, id, item); }
    if parse(last).Some? { WalkMeaning(lib, Gathered(lib, parse, front), parse(last).value, id, item); }
  }
}
