/** The resolver as it runs: a recursive evaluation that fills shared counters, proved
    to build the tree and to leave counters that agree with it. */
module ResolverRun {
  import opened Common
  import opened Resolver

  // ----- Measures of a tree and of a list of trees

  function Size(node: Node): nat { 1 + SizeAll(node.children) }

  function SizeAll(nodes: seq<Node>): nat {
    if nodes == [] then 0 else SizeAll(nodes[..|nodes| - 1]) + Size(nodes[|nodes| - 1])
  }

  function Truncations(node: Node): nat {
    (if node.truncated then 1 else 0) + TruncationsAll(node.children)
  }

  function TruncationsAll(nodes: seq<Node>): nat {
    if nodes == [] then 0 else TruncationsAll(nodes[..|nodes| - 1]) + Truncations(nodes[|nodes| - 1])
  }

  /** Height, not counting truncated nodes. */
  function Height(node: Node): nat { if node.truncated then 0 else 1 + HeightAll(node.children) }

  function HeightAll(nodes: seq<Node>): nat {
    if nodes == [] then 0 else Max(HeightAll(nodes[..|nodes| - 1]), Height(nodes[|nodes| - 1]))
  }

  datatype Decisive = Decisive(obj: string, relation: string, tuple: StoredTuple)

  function Hit(w: World, user: string, obj: string, relation: string): (r: Option<Decisive>)
    ensures r.Some? ==> r.value.tuple in w.tuples && Says(r.value.tuple, obj, relation, user)
  {
    match Find(w.tuples, obj, relation, user)
    case None => None
    case Some(t) => Some(Decisive(obj, relation, t))
  }

  /** The first allowed leaf in pre-order, and the tuple behind it. */
  function FirstHit(w: World, user: string, node: Node): Option<Decisive> {
    if node.children != [] then FirstHitAll(w, user, node.children)
    else if node.allowed then Hit(w, user, node.name.obj, node.name.relation)
    else None
  }

  function FirstHitAll(w: World, user: string, nodes: seq<Node>): Option<Decisive> {
    if nodes == [] then None
    else
      var before := FirstHitAll(w, user, nodes[..|nodes| - 1]);
      if before.Some? then before else FirstHit(w, user, nodes[|nodes| - 1])
  }

  // ----- The counters

  datatype Stats = Stats(nodes: nat, maxDepth: nat, depthCapHit: bool, decisive: Option<Decisive>)

  /** The counters after trees with these measures, rooted at the given depth. */
  function Advance(s: Stats, size: nat, truncations: nat, height: nat, hit: Option<Decisive>, depth: nat): Stats
    requires truncations <= size && depth > 0
  {
    Stats(s.nodes + size - truncations,
          if height == 0 then s.maxDepth else Max(s.maxDepth, depth - 1 + height),
          s.depthCapHit || truncations > 0,
          if s.decisive.Some? then s.decisive else hit)
  }

  lemma {:induction false} TruncationsFit(nodes: seq<Node>)
    ensures TruncationsAll(nodes) <= SizeAll(nodes)
  {
    if nodes != [] {
      TruncationsFit(nodes[..|nodes| - 1]);
      TruncationsFit(nodes[|nodes| - 1].children);
    }
  }

  function AfterAll(s: Stats, w: World, user: string, nodes: seq<Node>, depth: nat): Stats
    requires depth > 0
  {
    TruncationsFit(nodes);
    Advance(s, SizeAll(nodes), TruncationsAll(nodes), HeightAll(nodes), FirstHitAll(w, user, nodes), depth)
  }

  function After(s: Stats, w: World, user: string, node: Node, depth: nat): Stats
    requires depth > 0
  {
    TruncationsFit(node.children);
    Advance(s, Size(node), Truncations(node), Height(node), FirstHit(w, user, node), depth)
  }

  lemma NothingAfter(s: Stats, w: World, user: string, depth: nat)
    requires depth > 0
    ensures AfterAll(s, w, user, [], depth) == s
  {
  }

  lemma AfterAllSnoc(s: Stats, w: World, user: string, nodes: seq<Node>, node: Node, depth: nat)
    requires depth > 0
    ensures AfterAll(s, w, user, nodes + [node], depth) ==
            After(AfterAll(s, w, user, nodes, depth), w, user, node, depth)
  {
    assert (nodes + [node])[..|nodes|] == nodes;
    TruncationsFit(nodes);
    TruncationsFit(node.children);
  }

  lemma {:induction false} AfterAllConcat(s: Stats, w: World, user: string, x: seq<Node>, y: seq<Node>, depth: nat)
    requires depth > 0
    ensures AfterAll(s, w, user, x + y, depth) == AfterAll(AfterAll(s, w, user, x, depth), w, user, y, depth)
    decreases |y|
  {
    hide After, AfterAll;
    if y == [] {
      assert x + y == x;
      NothingAfter(AfterAll(s, w, user, x, depth), w, user, depth);
    } else {
      var init, last := y[..|y| - 1], y[|y| - 1];
      AfterAllConcat(s, w, user, x, init, depth);
      AfterAllSnoc(s, w, user, x + init, last, depth);
      AfterAllSnoc(AfterAll(s, w, user, x, depth), w, user, init, last, depth);
      assert x + y == (x + init) + [last] && y == init + [last];
    }
  }

  /** Visiting a node, then its children one level down, is the whole tree. */
  lemma AfterNode(s: Stats, w: World, user: string, node: Node, depth: nat)
    requires depth > 0 && !node.truncated && (node.children == [] ==> !node.allowed)
    ensures After(s, w, user, node, depth) ==
            AfterAll(s.(nodes := s.nodes + 1, maxDepth := Max(s.maxDepth, depth)), w, user, node.children, depth + 1)
  {
    TruncationsFit(node.children);
  }

  lemma AfterLeaf(s: Stats, w: World, user: string, node: Node, depth: nat)
    requires depth > 0 && !node.truncated && node.children == []
    ensures After(s, w, user, node, depth) ==
            Stats(s.nodes + 1, Max(s.maxDepth, depth), s.depthCapHit,
                  if s.decisive.Some? then s.decisive else FirstHit(w, user, node))
  {
    assert SizeAll([]) == TruncationsAll([]) == HeightAll([]) == 0;
  }

  lemma AfterTruncated(s: Stats, w: World, user: string, node: Node, depth: nat)
    requires depth > 0 && node.truncated && node.children == [] && !node.allowed
    ensures After(s, w, user, node, depth) == s.(depthCapHit := true)
  {
    assert SizeAll([]) == TruncationsAll([]) == 0;
  }

  // ----- The evaluation

  class Ctx {
    var nodes: nat
    var maxDepth: nat
    var depthCapHit: bool
    var decisive: Option<Decisive>

    constructor ()
      ensures Counters() == Stats(0, 0, false, None)
    {
      nodes, maxDepth, depthCapHit, decisive := 0, 0, false, None;
    }

    function Counters(): Stats
      reads this
    {
      Stats(nodes, maxDepth, depthCapHit, decisive)
    }

    method Visit(depth: nat)
      modifies this
      ensures Counters() == old(Counters()).(nodes := old(nodes) + 1, maxDepth := Max(old(maxDepth), depth))
    {
      nodes := nodes + 1;
      if depth > maxDepth {
        maxDepth := depth;
      }
    }

    method DirectLeaf(w: World, obj: string, relation: string, user: string, depth: nat, via: Via) returns (node: Node)
      requires depth > 0
      modifies this
      ensures node == Leaf(w, obj, relation, user, via)
      ensures Counters() == After(old(Counters()), w, user, node, depth)
    {
      ghost var start := Counters();
      Visit(depth);
      var hit := Find(w.tuples, obj, relation, user);
      node := Node(if via == Direct then Membership(obj, relation, user) else Userset(obj, relation),
                   hit.Some?, via, [], None, false);
      if hit.Some? {
        if w.provenance {
          node := node.(provenance := hit);
        }
        if decisive.None? {
          decisive := Some(Decisive(obj, relation, hit.value));
        }
      }
      AfterLeaf(start, w, user, node, depth);
    }

    method Evaluate(w: World, obj: string, relation: string, user: string, depth: nat, via: Via) returns (node: Node)
      requires depth > 0
      modifies this
      ensures node == Tree(w, obj, relation, user, depth, via)
      ensures Counters() == After(old(Counters()), w, user, node, depth)
      decreases Rank(depth), 0
    {
      hide After, AfterAll, Branches, Leaf, Lookup;
      if depth > DEPTH_CAP {
        node := Node(Userset(obj, relation), false, via, [], None, true);
        AfterTruncated(Counters(), w, user, node, depth);
        depthCapHit := true;
        return;
      }
      var found := Lookup(w.model, obj, relation);
      if found.None? {
        node := Node(Userset(obj, relation), false, via, [], None, false);
        AfterLeaf(Counters(), w, user, node, depth);
        Visit(depth);
        return;
      }
      var def := found.value;
      if IsLeaf(def) {
        node := DirectLeaf(w, obj, relation, user, depth, via);
        return;
      }
      ghost var start := Counters();
      Visit(depth);
      var children := EvaluateBranches(w, def, obj, relation, user, depth + 1);
      node := Node(Userset(obj, relation), AnyAllowed(children), if via == Computed then Computed else Union,
                   children, None, false);
      AfterNode(start, w, user, node, depth);
    }

    method EvaluateBranches(w: World, def: RelationDef, obj: string, relation: string, user: string, depth: nat)
      returns (children: seq<Node>)
      requires depth > 0
      modifies this
      ensures children == Branches(w, def, obj, relation, user, depth)
      ensures Counters() == AfterAll(old(Counters()), w, user, children, depth)
      decreases Rank(depth), 4
    {
      hide After, AfterAll, Leaf, ComputedNodes, TtuNodes;
      ghost var start := Counters();
      NothingAfter(start, w, user, depth);
      var direct := [];
      if def.direct {
        var leaf := DirectLeaf(w, obj, relation, user, depth, Direct);
        direct := [leaf];
        AfterAllSnoc(start, w, user, [], leaf, depth);
        assert [] + [leaf] == direct;
      }
      var computed := EvaluateComputed(w, obj, def.computed, user, depth);
      AfterAllConcat(start, w, user, direct, computed, depth);
      var ttus := EvaluateTtus(w, obj, def.tupleToUserset, user, depth);
      AfterAllConcat(start, w, user, direct + computed, ttus, depth);
      children := direct + computed + ttus;
    }

    method EvaluateComputed(w: World, obj: string, relations: seq<string>, user: string, depth: nat)
      returns (children: seq<Node>)
      requires depth > 0
      modifies this
      ensures children == ComputedNodes(w, obj, relations, user, depth)
      ensures Counters() == AfterAll(old(Counters()), w, user, children, depth)
      decreases Rank(depth), 1
    {
      hide After, AfterAll, Tree;
      NothingAfter(Counters(), w, user, depth);
      children := [];
      for k := 0 to |relations|
        invariant |children| == k
        invariant forall i | 0 <= i < k :: children[i] == Tree(w, obj, relations[i], user, depth, Computed)
        invariant Counters() == AfterAll(old(Counters()), w, user, children, depth)
      {
        var child := Evaluate(w, obj, relations[k], user, depth, Computed);
        AfterAllSnoc(old(Counters()), w, user, children, child, depth);
        children := children + [child];
      }
    }

    method EvaluateTtus(w: World, obj: string, ttus: seq<Ttu>, user: string, depth: nat)
      returns (children: seq<Node>)
      requires depth > 0
      modifies this
      ensures children == TtuNodes(w, obj, ttus, user, depth)
      ensures Counters() == AfterAll(old(Counters()), w, user, children, depth)
      decreases Rank(depth), 3
    {
      hide After, AfterAll, TtuNode;
      NothingAfter(Counters(), w, user, depth);
      children := [];
      for k := 0 to |ttus|
        invariant |children| == k
        invariant forall i | 0 <= i < k :: children[i] == TtuNode(w, obj, ttus[i], user, depth)
        invariant Counters() == AfterAll(old(Counters()), w, user, children, depth)
      {
        var node := EvaluateTtu(w, obj, ttus[k], user, depth);
        AfterAllSnoc(old(Counters()), w, user, children, node, depth);
        children := children + [node];
      }
    }

    method EvaluateTtu(w: World, obj: string, ttu: Ttu, user: string, depth: nat) returns (node: Node)
      requires depth > 0
      modifies this
      ensures node == TtuNode(w, obj, ttu, user, depth)
      ensures Counters() == After(old(Counters()), w, user, node, depth)
      decreases Rank(depth), 2
    {
      hide After, AfterAll, TargetNodes, Targets;
      ghost var start := Counters();
      Visit(depth);
      var targets := Targets(w.tuples, obj, ttu.tupleset);
      var viaChildren := EvaluateTargets(w, targets, ttu.relation, user, depth + 1);
      node := Node(Userset(obj, ttu.tupleset), AnyAllowed(viaChildren), TupleToUserset, viaChildren, None, false);
      AfterNode(start, w, user, node, depth);
    }

    method EvaluateTargets(w: World, targets: seq<string>, relation: string, user: string, depth: nat)
      returns (children: seq<Node>)
      requires depth > 0
      modifies this
      ensures children == TargetNodes(w, targets, relation, user, depth)
      ensures Counters() == AfterAll(old(Counters()), w, user, children, depth)
      decreases Rank(depth), 1
    {
      hide After, AfterAll, Tree;
      NothingAfter(Counters(), w, user, depth);
      children := [];
      for k := 0 to |targets|
        invariant |children| == k
        invariant forall i | 0 <= i < k :: children[i] == Tree(w, targets[i], relation, user, depth, Direct)
        invariant Counters() == AfterAll(old(Counters()), w, user, children, depth)
      {
        var child := Evaluate(w, targets[k], relation, user, depth, Direct);
        AfterAllSnoc(old(Counters()), w, user, children, child, depth);
        children := children + [child];
      }
    }
  }

  // ----- explain

  datatype Check = Check(obj: string, relation: string, user: string)

  datatype Response = Response(
    allowed: bool, tree: Node, decisive: Option<Decisive>,
    nodesEvaluated: nat, maxDepth: nat, depthCapHit: bool)

  /** The counters of the response are facts about the returned tree. */
  ghost predicate Agrees(w: World, check: Check, r: Response) {
    && r.allowed == r.tree.allowed
    && r.nodesEvaluated + Truncations(r.tree) == Size(r.tree)
    && r.maxDepth == Min(Height(r.tree), DEPTH_CAP)
    && (r.depthCapHit <==> Truncations(r.tree) > 0)
    && (r.allowed <==> r.decisive.Some?)
    && (r.allowed ==> r.decisive == FirstHit(w, check.user, r.tree))
    && (r.allowed ==> r.decisive.value.tuple in w.tuples && r.decisive.value.tuple.user == check.user)
  }

  method Explain(w: World, check: Check) returns (r: Response)
    ensures r.tree == Tree(w, check.obj, check.relation, check.user, 1, Direct)
    ensures Agrees(w, check, r) && Height(r.tree) <= DEPTH_CAP + 1
  {
    var ctx := new Ctx();
    var tree := ctx.Evaluate(w, check.obj, check.relation, check.user, 1, Direct);
    r := Response(tree.allowed, tree, if tree.allowed then ctx.decisive else None,
                  ctx.nodes, Min(ctx.maxDepth, DEPTH_CAP), ctx.depthCapHit);
    TruncationsFit(tree.children);
    assert !tree.truncated;
    TreeIsSound(w, check.obj, check.relation, check.user, 1, Direct);
  }

  ghost predicate IsStored(w: World, user: string, d: Decisive) {
    d.tuple in w.tuples && Says(d.tuple, d.obj, d.relation, user)
  }

  /** A node at this depth: its decisive tuple exists iff it is allowed, is stored and
      is the checked user's; and no visit below it is deeper than one level past the cap. */
  ghost predicate Sound(w: World, user: string, node: Node, depth: nat) {
    var hit := FirstHit(w, user, node);
    && (hit.Some? <==> node.allowed)
    && (hit.Some? ==> IsStored(w, user, hit.value))
    && (Height(node) == 0 || depth + Height(node) <= DEPTH_CAP + 2)
  }

  lemma {:induction false} SoundAll(w: World, user: string, nodes: seq<Node>, depth: nat)
    requires forall k | 0 <= k < |nodes| :: Sound(w, user, nodes[k], depth)
    ensures FirstHitAll(w, user, nodes).Some? <==> AnyAllowed(nodes)
    ensures FirstHitAll(w, user, nodes).Some? ==> IsStored(w, user, FirstHitAll(w, user, nodes).value)
    ensures HeightAll(nodes) == 0 || depth + HeightAll(nodes) <= DEPTH_CAP + 2
  {
    if nodes != [] {
      var init := nodes[..|nodes| - 1];
      SoundAll(w, user, init, depth);
      assert AnyAllowed(nodes) <==> AnyAllowed(init) || nodes[|nodes| - 1].allowed by {
        if k :| 0 <= k < |init| && init[k].allowed { assert nodes[k].allowed; }
      }
    }
  }

  lemma {:induction false} TreeIsSound(w: World, obj: string, relation: string, user: string, depth: nat, via: Via)
    ensures Sound(w, user, Tree(w, obj, relation, user, depth, via), depth)
    decreases Rank(depth), 0
  {
    if depth <= DEPTH_CAP && Lookup(w.model, obj, relation).Some? {
      var def := Lookup(w.model, obj, relation).value;
      if !IsLeaf(def) {
        var children := Branches(w, def, obj, relation, user, depth + 1);
        forall k | 0 <= k < |children| ensures Sound(w, user, children[k], depth + 1) {
          BranchIsSound(w, def, obj, relation, user, depth + 1, k);
        }
        SoundAll(w, user, children, depth + 1);
      }
    }
  }

  lemma LeafIsSound(w: World, obj: string, relation: string, user: string, depth: nat, via: Via)
    requires depth <= DEPTH_CAP + 1
    ensures Sound(w, user, Leaf(w, obj, relation, user, via), depth)
  {
  }

  lemma {:induction false} TtuIsSound(w: World, obj: string, ttu: Ttu, user: string, depth: nat)
    requires depth <= DEPTH_CAP + 1
    ensures Sound(w, user, TtuNode(w, obj, ttu, user, depth), depth)
    decreases Rank(depth), 1
  {
    hide Tree, Targets;
    var node := TtuNode(w, obj, ttu, user, depth);
    TargetShape(w, obj, ttu, user, depth);
    forall i | 0 <= i < |node.children| ensures Sound(w, user, node.children[i], depth + 1) {
      hide Sound;
      TreeIsSound(w, Targets(w.tuples, obj, ttu.tupleset)[i], ttu.relation, user, depth + 1, Direct);
    }
    SoundAll(w, user, node.children, depth + 1);
  }

  lemma {:induction false} BranchIsSound(w: World, def: RelationDef, obj: string, relation: string, user: string,
                                         depth: nat, k: nat)
    requires depth <= DEPTH_CAP + 1 && k < |Branches(w, def, obj, relation, user, depth)|
    ensures Sound(w, user, Branches(w, def, obj, relation, user, depth)[k], depth)
    decreases Rank(depth), 2
  {
    hide *;
    BranchShape(w, def, obj, relation, user, depth);
    var d, c := if def.direct then 1 else 0, |def.computed|;
    if k < d {
      LeafIsSound(w, obj, relation, user, depth, Direct);
    } else if k < d + c {
      TreeIsSound(w, obj, def.computed[k - d], user, depth, Computed);
    } else {
      TtuIsSound(w, obj, def.tupleToUserset[k - d - c], user, depth);
    }
  }
}
