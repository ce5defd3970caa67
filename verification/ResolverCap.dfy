/** When the depth cap is hit, said over the model and the tuples, and what the nodes carry. */
module ResolverCap {
  import opened Common
  import opened Resolver
  import opened ResolverMeaning
  import opened ResolverRun
  import opened ResolverTheorems

  /** One rewrite of a defined relation: a computed relation of the same object is one level down, a relation
      of a stored target two. */
  ghost predicate Rewrites(model: Model, tuples: seq<StoredTuple>, obj: string, relation: string,
                           obj': string, relation': string, levels: nat)
  {
    match Lookup(model, obj, relation)
    case None => false
    case Some(def) =>
      || (levels == 1 && obj' == obj && relation' in def.computed)
      || (levels == 2 && exists ttu <- def.tupleToUserset ::
            ttu.relation == relation' && exists t <- tuples :: Says(t, obj, ttu.tupleset, obj'))
  }

  /** Some chain of rewrites from the relation goes down at least n levels. */
  ghost predicate Deep(n: int, model: Model, tuples: seq<StoredTuple>, obj: string, relation: string)
    decreases if n < 0 then 0 else n
  {
    n <= 0 ||
    exists obj': string, relation': string, levels: nat ::
      1 <= levels <= 2 && Rewrites(model, tuples, obj, relation, obj', relation', levels) &&
      Deep(n - levels, model, tuples, obj', relation')
  }

  lemma {:induction false} SomeTruncated(nodes: seq<Node>)
    ensures TruncationsAll(nodes) > 0 <==> exists k | 0 <= k < |nodes| :: Truncations(nodes[k]) > 0
  {
    if nodes != [] {
      var init := nodes[..|nodes| - 1];
      SomeTruncated(init);
      if k :| 0 <= k < |init| && Truncations(init[k]) > 0 { assert Truncations(nodes[k]) > 0; }
    }
  }

  lemma DeepByComputed(n: int, w: World, def: RelationDef, obj: string, relation: string, c: string)
    requires Lookup(w.model, obj, relation) == Some(def) && c in def.computed && Deep(n - 1, w.model, w.tuples, obj, c)
    ensures Deep(n, w.model, w.tuples, obj, relation)
  {
    assert Rewrites(w.model, w.tuples, obj, relation, obj, c, 1);
  }

  lemma DeepByTtu(n: int, w: World, def: RelationDef, obj: string, relation: string, ttu: Ttu, target: string)
    requires Lookup(w.model, obj, relation) == Some(def) && ttu in def.tupleToUserset
    requires target in Targets(w.tuples, obj, ttu.tupleset) && Deep(n - 2, w.model, w.tuples, target, ttu.relation)
    ensures Deep(n, w.model, w.tuples, obj, relation)
  {
    hide Deep;
    assert Rewrites(w.model, w.tuples, obj, relation, target, ttu.relation, 2);
    DeepBy(n, w, obj, relation, target, ttu.relation, 2);
  }

  lemma DeepBy(n: int, w: World, obj: string, relation: string, obj': string, relation': string, levels: nat)
    requires 1 <= levels <= 2 && Rewrites(w.model, w.tuples, obj, relation, obj', relation', levels)
    requires Deep(n - levels, w.model, w.tuples, obj', relation')
    ensures Deep(n, w.model, w.tuples, obj, relation)
  {
    hide Rewrites;
  }

  /** The first rewrite of a deep chain. */
  lemma FirstRewrite(n: int, w: World, def: RelationDef, obj: string, relation: string)
    returns (c: Option<string>, ttu: Option<Ttu>, target: string)
    requires n > 0 && Lookup(w.model, obj, relation) == Some(def) && Deep(n, w.model, w.tuples, obj, relation)
    ensures c.Some? || ttu.Some?
    ensures c.Some? ==> c.value in def.computed && Deep(n - 1, w.model, w.tuples, obj, c.value)
    ensures ttu.Some? ==>
      && ttu.value in def.tupleToUserset && target in Targets(w.tuples, obj, ttu.value.tupleset)
      && Deep(n - 2, w.model, w.tuples, target, ttu.value.relation)
  {
    hide Lookup, Targets;
    var obj', relation', levels := DeepNext(n, w, obj, relation);
    hide Deep;
    c, ttu, target := None, None, obj';
    if levels == 1 {
      c := Some(relation');
    } else {
      var x := RewriteTtu(w, def, obj, relation, obj', relation');
      ttu := Some(x);
    }
  }

  lemma DeepNext(n: int, w: World, obj: string, relation: string)
    returns (obj': string, relation': string, levels: nat)
    requires n > 0 && Deep(n, w.model, w.tuples, obj, relation)
    ensures 1 <= levels <= 2 && Rewrites(w.model, w.tuples, obj, relation, obj', relation', levels)
    ensures Deep(n - levels, w.model, w.tuples, obj', relation')
  {
    hide Rewrites;
    obj', relation', levels :|
      1 <= levels <= 2 && Rewrites(w.model, w.tuples, obj, relation, obj', relation', levels) &&
      Deep(n - levels, w.model, w.tuples, obj', relation');
  }

  lemma RewriteTtu(w: World, def: RelationDef, obj: string, relation: string, target: string, relation': string)
    returns (ttu: Ttu)
    requires Lookup(w.model, obj, relation) == Some(def)
    requires Rewrites(w.model, w.tuples, obj, relation, target, relation', 2)
    ensures ttu in def.tupleToUserset && ttu.relation == relation' && target in Targets(w.tuples, obj, ttu.tupleset)
  {
    hide Lookup;
    ttu :| ttu in def.tupleToUserset && ttu.relation == relation'
           && exists t <- w.tuples :: Says(t, obj, ttu.tupleset, target);
  }

  lemma UndefinedIsShallow(n: int, w: World, obj: string, relation: string)
    requires n > 0 && Lookup(w.model, obj, relation).None?
    ensures !Deep(n, w.model, w.tuples, obj, relation)
  {
  }

  /** Below a node something is truncated exactly when some chain of rewrites goes past the cap. */
  lemma {:induction false} TruncatedIffDeep(w: World, obj: string, relation: string, user: string, depth: nat, via: Via)
    ensures Truncations(Tree(w, obj, relation, user, depth, via)) > 0 <==>
            Deep(DEPTH_CAP + 1 - depth, w.model, w.tuples, obj, relation)
    decreases Rank(depth), 1
  {
    if depth > DEPTH_CAP {
      assert Deep(DEPTH_CAP + 1 - depth, w.model, w.tuples, obj, relation);
    } else if Lookup(w.model, obj, relation).None? {
      UndefinedIsShallow(DEPTH_CAP + 1 - depth, w, obj, relation);
      assert TruncationsAll([]) == 0;
    } else {
      BranchesTruncated(w, Lookup(w.model, obj, relation).value, obj, relation, user, depth);
      hide Deep, Branches, Truncations;
      NodeTruncations(w, obj, relation, user, depth, via);
    }
  }

  /** A defined relation within the cap is not truncated itself. */
  lemma NodeTruncations(w: World, obj: string, relation: string, user: string, depth: nat, via: Via)
    requires depth <= DEPTH_CAP && Lookup(w.model, obj, relation).Some?
    ensures var def := Lookup(w.model, obj, relation).value;
      Truncations(Tree(w, obj, relation, user, depth, via)) ==
      if IsLeaf(def) then 0 else TruncationsAll(Branches(w, def, obj, relation, user, depth + 1))
  {
    hide Branches;
    assert TruncationsAll([]) == 0;
  }

  lemma {:induction false} BranchesTruncated(w: World, def: RelationDef, obj: string, relation: string, user: string,
                                             depth: nat)
    requires depth <= DEPTH_CAP && Lookup(w.model, obj, relation) == Some(def)
    ensures !IsLeaf(def) && TruncationsAll(Branches(w, def, obj, relation, user, depth + 1)) > 0 <==>
            Deep(DEPTH_CAP + 1 - depth, w.model, w.tuples, obj, relation)
    decreases Rank(depth), 0
  {
    hide Deep, Tree, Branches, TruncationsAll, Lookup;
    if TruncationsAll(Branches(w, def, obj, relation, user, depth + 1)) > 0 {
      TruncatedIsDeep(w, def, obj, relation, user, depth);
    }
    if Deep(DEPTH_CAP + 1 - depth, w.model, w.tuples, obj, relation) {
      DeepIsTruncated(w, def, obj, relation, user, depth);
    }
  }

  lemma {:induction false} TruncatedIsDeep(w: World, def: RelationDef, obj: string, relation: string, user: string,
                                           depth: nat)
    requires depth <= DEPTH_CAP && Lookup(w.model, obj, relation) == Some(def)
    requires TruncationsAll(Branches(w, def, obj, relation, user, depth + 1)) > 0
    ensures Deep(DEPTH_CAP + 1 - depth, w.model, w.tuples, obj, relation)
    decreases Rank(depth + 1), 2
  {
    hide Deep, Tree, Branches, TtuNode, Truncations, TruncationsAll, Targets, Lookup;
    var n, branches := DEPTH_CAP + 1 - depth, Branches(w, def, obj, relation, user, depth + 1);
    var d, l := if def.direct then 1 else 0, |def.computed|;
    BranchShape(w, def, obj, relation, user, depth + 1);
    SomeTruncated(branches);
    var k :| 0 <= k < |branches| && Truncations(branches[k]) > 0;
    LeafIsWhole(w, obj, relation, user);
    if d <= k < d + l {
      TruncatedIffDeep(w, obj, def.computed[k - d], user, depth + 1, Computed);
      DeepByComputed(n, w, def, obj, relation, def.computed[k - d]);
    } else if k >= d + l {
      var ttu := def.tupleToUserset[k - d - l];
      var target := TtuTruncated(w, obj, ttu, user, depth + 1);
      TruncatedIffDeep(w, target, ttu.relation, user, depth + 2, Direct);
      DeepByTtu(n, w, def, obj, relation, ttu, target);
    }
  }

  lemma {:induction false} DeepIsTruncated(w: World, def: RelationDef, obj: string, relation: string, user: string,
                                           depth: nat)
    requires depth <= DEPTH_CAP && Lookup(w.model, obj, relation) == Some(def)
    requires Deep(DEPTH_CAP + 1 - depth, w.model, w.tuples, obj, relation)
    ensures !IsLeaf(def) && TruncationsAll(Branches(w, def, obj, relation, user, depth + 1)) > 0
    decreases Rank(depth + 1), 2
  {
    hide Deep, Tree, Branches, TtuNode, Truncations, TruncationsAll, Targets, Lookup;
    var branches := Branches(w, def, obj, relation, user, depth + 1);
    var d, l := if def.direct then 1 else 0, |def.computed|;
    BranchShape(w, def, obj, relation, user, depth + 1);
    SomeTruncated(branches);
    var c, ttu, target := FirstRewrite(DEPTH_CAP + 1 - depth, w, def, obj, relation);
    if c.Some? {
      var k :| 0 <= k < l && def.computed[k] == c.value;
      TruncatedIffDeep(w, obj, c.value, user, depth + 1, Computed);
      assert Truncations(branches[d + k]) > 0;
    } else {
      var k :| 0 <= k < |def.tupleToUserset| && def.tupleToUserset[k] == ttu.value;
      TruncatedIffDeep(w, target, ttu.value.relation, user, depth + 2, Direct);
      TargetTruncates(w, obj, ttu.value, user, depth + 1, target);
      assert Truncations(branches[d + l + k]) > 0;
    }
  }

  lemma LeafIsWhole(w: World, obj: string, relation: string, user: string)
    ensures Truncations(Leaf(w, obj, relation, user, Direct)) == 0
  {
    assert TruncationsAll([]) == 0;
  }

  lemma TtuTruncations(w: World, obj: string, ttu: Ttu, user: string, depth: nat)
    ensures var node := TtuNode(w, obj, ttu, user, depth); Truncations(node) == TruncationsAll(node.children)
  {
    hide Targets, TargetNodes;
  }

  lemma TtuTruncated(w: World, obj: string, ttu: Ttu, user: string, depth: nat) returns (target: string)
    requires Truncations(TtuNode(w, obj, ttu, user, depth)) > 0
    ensures target in Targets(w.tuples, obj, ttu.tupleset)
    ensures Truncations(Tree(w, target, ttu.relation, user, depth + 1, Direct)) > 0
  {
    hide Tree, Truncations, TruncationsAll, Targets, TtuNode;
    TtuTruncations(w, obj, ttu, user, depth);
    TargetShape(w, obj, ttu, user, depth);
    SomeTruncated(TtuNode(w, obj, ttu, user, depth).children);
    var children := TtuNode(w, obj, ttu, user, depth).children;
    var k :| 0 <= k < |children| && Truncations(children[k]) > 0;
    target := Targets(w.tuples, obj, ttu.tupleset)[k];
  }

  lemma TargetTruncates(w: World, obj: string, ttu: Ttu, user: string, depth: nat, target: string)
    requires target in Targets(w.tuples, obj, ttu.tupleset)
    requires Truncations(Tree(w, target, ttu.relation, user, depth + 1, Direct)) > 0
    ensures Truncations(TtuNode(w, obj, ttu, user, depth)) > 0
  {
    hide Tree, Truncations, TruncationsAll, Targets, TtuNode;
    TtuTruncations(w, obj, ttu, user, depth);
    TargetShape(w, obj, ttu, user, depth);
    var children := TtuNode(w, obj, ttu, user, depth).children;
    SomeTruncated(children);
    var k :| 0 <= k < |children| && Targets(w.tuples, obj, ttu.tupleset)[k] == target;
    assert Truncations(children[k]) > 0;
  }

  /** An explanation reports the cap as hit exactly when some chain of rewrites from the check goes down at
      least eight levels; an undefined relation is denied without it. */
  lemma CapHitIffDeep(w: World, check: Check, r: Response)
    requires r.tree == Tree(w, check.obj, check.relation, check.user, 1, Direct) && Agrees(w, check, r)
    ensures r.depthCapHit <==> Deep(8, w.model, w.tuples, check.obj, check.relation)
    ensures Lookup(w.model, check.obj, check.relation).None? ==>
      !r.depthCapHit && !r.allowed && r.nodesEvaluated == 1 && r.maxDepth == 1
  {
    hide Deep;
    TruncatedIffDeep(w, check.obj, check.relation, check.user, 1, Direct);
    if Lookup(w.model, check.obj, check.relation).None? {
      UndefinedIsShallow(8, w, check.obj, check.relation);
      assert SizeAll([]) == TruncationsAll([]) == HeightAll([]) == 0;
    }
  }

  // ----- Provenance

  /** A node with a tuple behind it is a leaf that the tuple allows; with provenance asked for, every
      allowed leaf names its tuple, and without it none does. */
  ghost predicate NodeOk(w: World, user: string, node: Node) {
    && (node.provenance.Some? ==>
          && w.provenance && node.children == [] && node.allowed && node.provenance.value in w.tuples
          && Says(node.provenance.value, node.name.obj, node.name.relation, user))
    && (w.provenance && node.children == [] && node.allowed ==> node.provenance.Some?)
    && forall k | 0 <= k < |node.children| :: NodeOk(w, user, node.children[k])
  }

  lemma {:induction false} EveryNodeOk(w: World, obj: string, relation: string, user: string, depth: nat, via: Via)
    ensures NodeOk(w, user, Tree(w, obj, relation, user, depth, via))
    decreases Rank(depth), 0
  {
    if depth <= DEPTH_CAP && Lookup(w.model, obj, relation).Some? {
      var def := Lookup(w.model, obj, relation).value;
      var branches := Branches(w, def, obj, relation, user, depth + 1);
      forall k | 0 <= k < |branches| ensures NodeOk(w, user, branches[k]) {
        BranchOk(w, def, obj, relation, user, depth + 1, k);
      }
      hide Branches;
    }
  }

  lemma {:induction false} BranchOk(w: World, def: RelationDef, obj: string, relation: string, user: string,
                                    depth: nat, k: nat)
    requires depth <= DEPTH_CAP + 1 && k < |Branches(w, def, obj, relation, user, depth)|
    ensures NodeOk(w, user, Branches(w, def, obj, relation, user, depth)[k])
    decreases Rank(depth), 1
  {
    hide Tree, Branches, TtuNode, Targets;
    BranchShape(w, def, obj, relation, user, depth);
    var d, c := if def.direct then 1 else 0, |def.computed|;
    if d <= k < d + c {
      EveryNodeOk(w, obj, def.computed[k - d], user, depth, Computed);
    } else if k >= d + c {
      var ttu := def.tupleToUserset[k - d - c];
      TargetShape(w, obj, ttu, user, depth);
      TtuPlain(w, obj, ttu, user, depth);
      forall i | 0 <= i < |Targets(w.tuples, obj, ttu.tupleset)|
        ensures NodeOk(w, user, TtuNode(w, obj, ttu, user, depth).children[i])
      {
        EveryNodeOk(w, Targets(w.tuples, obj, ttu.tupleset)[i], ttu.relation, user, depth + 1, Direct);
      }
    }
  }

  lemma TtuPlain(w: World, obj: string, ttu: Ttu, user: string, depth: nat)
    ensures var node := TtuNode(w, obj, ttu, user, depth);
      node.provenance.None? && (node.children == [] ==> !node.allowed)
  {
    hide Targets, TargetNodes;
  }

  /** What a node is called and how it says it was reached: a membership only for a leaf asked directly, a
      union unless it was reached by a computed relation. */
  lemma NodeIsNamed(w: World, obj: string, relation: string, user: string, depth: nat, via: Via)
    ensures var node, found := Tree(w, obj, relation, user, depth, via), Lookup(w.model, obj, relation);
      var branching := depth <= DEPTH_CAP && found.Some? && !IsLeaf(found.value);
      && node.name == (if via == Direct && depth <= DEPTH_CAP && found.Some? && !branching
                       then Membership(obj, relation, user) else Userset(obj, relation))
      && node.via == (if branching && via != Computed then Union else via)
  {
    hide Branches;
  }

  /** A tuple-to-userset node is about the object's tupleset; its children are those of the stored users. */
  lemma TtuIsNamed(w: World, obj: string, ttu: Ttu, user: string, depth: nat)
    ensures var node := TtuNode(w, obj, ttu, user, depth);
      && node.name == Userset(obj, ttu.tupleset) && node.via == TupleToUserset && !node.truncated
      && (node.allowed <==> exists k | 0 <= k < |node.children| :: node.children[k].allowed)
      && |node.children| == |Targets(w.tuples, obj, ttu.tupleset)|
  {
    hide Tree, Targets;
  }
}
