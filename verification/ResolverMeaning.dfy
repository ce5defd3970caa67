/** What a check means, and how far the capped evaluation decides it. */
module ResolverMeaning {
  import opened Common
  import opened Resolver

  /** Derivable with the given budget: one level per computed rewrite, two per
      tuple-to-userset rewrite. */
  ghost predicate Within(budget: nat, model: Model, tuples: seq<StoredTuple>, obj: string, relation: string,
                         user: string)
    decreases budget, 0
  {
    budget > 0 &&
    match Lookup(model, obj, relation)
    case None => false
    case Some(def) =>
      || (def.direct && Find(tuples, obj, relation, user).Some?)
      || ComputedWithin(budget - 1, model, tuples, def.computed, obj, user)
      || (budget > 1 && TtuWithin(budget - 2, model, tuples, def.tupleToUserset, obj, user))
  }

  ghost predicate ComputedWithin(budget: nat, model: Model, tuples: seq<StoredTuple>, computed: seq<string>,
                                 obj: string, user: string)
    decreases budget, 1
  {
    exists c <- computed :: Within(budget, model, tuples, obj, c, user)
  }

  ghost predicate TtuWithin(budget: nat, model: Model, tuples: seq<StoredTuple>, ttus: seq<Ttu>, obj: string,
                            user: string)
    decreases budget, 2
  {
    exists ttu <- ttus ::
      TargetWithin(budget, model, tuples, Targets(tuples, obj, ttu.tupleset), ttu.relation, user)
  }

  ghost predicate TargetWithin(budget: nat, model: Model, tuples: seq<StoredTuple>, targets: seq<string>,
                               relation: string, user: string)
    decreases budget, 1
  {
    exists t <- targets :: Within(budget, model, tuples, t, relation, user)
  }

  /** Derivable at all. */
  ghost predicate Granted(model: Model, tuples: seq<StoredTuple>, obj: string, relation: string, user: string) {
    exists budget: nat :: Within(budget, model, tuples, obj, relation, user)
  }

  // ----- Granted is the least fixpoint of the rewrites

  /** One application of the rewrites to a set of (object, relation) pairs held by the user. */
  ghost predicate Justified(held: iset<(string, string)>, model: Model, tuples: seq<StoredTuple>,
                            obj: string, relation: string, user: string)
  {
    match Lookup(model, obj, relation)
    case None => false
    case Some(def) =>
      || (def.direct && exists t <- tuples :: Says(t, obj, relation, user))
      || (exists c <- def.computed :: (obj, c) in held)
      || (exists ttu <- def.tupleToUserset, t <- tuples ::
            Says(t, obj, ttu.tupleset, t.user) && (t.user, ttu.relation) in held)
  }

  ghost predicate Closed(held: iset<(string, string)>, model: Model, tuples: seq<StoredTuple>, user: string) {
    forall obj, relation :: Justified(held, model, tuples, obj, relation, user) ==> (obj, relation) in held
  }

  ghost function GrantedSet(model: Model, tuples: seq<StoredTuple>, user: string): iset<(string, string)> {
    iset obj: string, relation: string | Granted(model, tuples, obj, relation, user) :: (obj, relation)
  }

  /** A derivation, opened at its last rewrite: the direct tuple, or a smaller derivation. */
  lemma LastRewrite(budget: nat, model: Model, tuples: seq<StoredTuple>, obj: string, relation: string, user: string)
    returns (def: RelationDef, c: Option<string>, ttu: Option<Ttu>, target: string)
    requires Within(budget, model, tuples, obj, relation, user)
    ensures budget > 0 && Lookup(model, obj, relation) == Some(def)
    ensures c.Some? ==> c.value in def.computed && Within(budget - 1, model, tuples, obj, c.value, user)
    ensures ttu.Some? ==>
      && budget > 1 && ttu.value in def.tupleToUserset && target in Targets(tuples, obj, ttu.value.tupleset)
      && Within(budget - 2, model, tuples, target, ttu.value.relation, user)
    ensures c.None? && ttu.None? ==> def.direct && Find(tuples, obj, relation, user).Some?
  {
    def, c, ttu, target := Lookup(model, obj, relation).value, None, None, "";
    if def.direct && Find(tuples, obj, relation, user).Some? {
    } else if ComputedWithin(budget - 1, model, tuples, def.computed, obj, user) {
      var r :| r in def.computed && Within(budget - 1, model, tuples, obj, r, user);
      c := Some(r);
    } else {
      var t :| t in def.tupleToUserset &&
               TargetWithin(budget - 2, model, tuples, Targets(tuples, obj, t.tupleset), t.relation, user);
      ttu := Some(t);
      target :|
        target in Targets(tuples, obj, t.tupleset) && Within(budget - 2, model, tuples, target, t.relation, user);
    }
  }

  lemma WithinByTuple(budget: nat, model: Model, tuples: seq<StoredTuple>, obj: string, relation: string,
                      user: string, def: RelationDef)
    requires Lookup(model, obj, relation) == Some(def) && def.direct && Find(tuples, obj, relation, user).Some?
    requires budget > 0
    ensures Within(budget, model, tuples, obj, relation, user)
  {
  }

  lemma WithinByComputed(budget: nat, model: Model, tuples: seq<StoredTuple>, obj: string, relation: string,
                         user: string, def: RelationDef, c: string)
    requires Lookup(model, obj, relation) == Some(def) && c in def.computed
    requires Within(budget, model, tuples, obj, c, user)
    ensures Within(budget + 1, model, tuples, obj, relation, user)
  {
    assert ComputedWithin(budget, model, tuples, def.computed, obj, user);
  }

  lemma WithinByTtu(budget: nat, model: Model, tuples: seq<StoredTuple>, obj: string, relation: string, user: string,
                    def: RelationDef, ttu: Ttu, target: string)
    requires Lookup(model, obj, relation) == Some(def) && ttu in def.tupleToUserset
    requires target in Targets(tuples, obj, ttu.tupleset)
    requires Within(budget, model, tuples, target, ttu.relation, user)
    ensures Within(budget + 2, model, tuples, obj, relation, user)
  {
    assert TargetWithin(budget, model, tuples, Targets(tuples, obj, ttu.tupleset), ttu.relation, user);
    assert TtuWithin(budget, model, tuples, def.tupleToUserset, obj, user);
  }

  lemma GrantedIsClosed(model: Model, tuples: seq<StoredTuple>, user: string)
    ensures Closed(GrantedSet(model, tuples, user), model, tuples, user)
  {
    var held := GrantedSet(model, tuples, user);
    forall obj, relation | Justified(held, model, tuples, obj, relation, user)
      ensures (obj, relation) in held
    {
      var def := Lookup(model, obj, relation).value;
      if def.direct && exists t <- tuples :: Says(t, obj, relation, user) {
        assert Within(1, model, tuples, obj, relation, user);
      } else if c :| c in def.computed && (obj, c) in held {
        var b: nat :| Within(b, model, tuples, obj, c, user);
        WithinByComputed(b, model, tuples, obj, relation, user, def, c);
      } else {
        var ttu, t :| ttu in def.tupleToUserset && t in tuples && Says(t, obj, ttu.tupleset, t.user)
                      && (t.user, ttu.relation) in held;
        var b: nat :| Within(b, model, tuples, t.user, ttu.relation, user);
        WithinByTtu(b, model, tuples, obj, relation, user, def, ttu, t.user);
      }
    }
  }

  lemma {:induction false} ClosedHoldsWithin(held: iset<(string, string)>, b: nat, model: Model,
                                             tuples: seq<StoredTuple>, obj: string, relation: string, user: string)
    requires Closed(held, model, tuples, user) && Within(b, model, tuples, obj, relation, user)
    ensures (obj, relation) in held
    decreases b
  {
    var def, c, ttu, target := LastRewrite(b, model, tuples, obj, relation, user);
    if c.Some? {
      ClosedHoldsWithin(held, b - 1, model, tuples, obj, c.value, user);
    } else if ttu.Some? {
      ClosedHoldsWithin(held, b - 2, model, tuples, target, ttu.value.relation, user);
      var t :| t in tuples && Says(t, obj, ttu.value.tupleset, target);
    }
    assert Justified(held, model, tuples, obj, relation, user);
  }

  /** Every set closed under the rewrites holds everything granted. */
  lemma GrantedIsLeast(held: iset<(string, string)>, model: Model, tuples: seq<StoredTuple>, user: string)
    requires Closed(held, model, tuples, user)
    ensures GrantedSet(model, tuples, user) <= held
  {
    forall obj: string, relation: string | Granted(model, tuples, obj, relation, user) ensures (obj, relation) in held {
      var b: nat :| Within(b, model, tuples, obj, relation, user);
      ClosedHoldsWithin(held, b, model, tuples, obj, relation, user);
    }
  }

  // ----- The capped evaluation

  /** A node is allowed exactly when the check is derivable in the levels left below the cap. */
  lemma {:induction false} TreeDecidesWithin(w: World, obj: string, relation: string, user: string, depth: nat,
                                             via: Via)
    ensures Tree(w, obj, relation, user, depth, via).allowed <==>
            Within(Rank(depth), w.model, w.tuples, obj, relation, user)
    decreases Rank(depth), 1
  {
    hide SomeComputed, SomeTtu, Branches, ComputedWithin, TtuWithin, Find, Lookup;
    if depth <= DEPTH_CAP && Lookup(w.model, obj, relation).Some? {
      var def := Lookup(w.model, obj, relation).value;
      ComputedDecidesWithin(w, def.computed, obj, user, depth + 1);
      TtuDecidesWithin(w, def.tupleToUserset, obj, user, depth + 1);
      BranchesAllowed(w, def, obj, relation, user, depth + 1);
      NoRewritesWithin(Rank(depth), w.model, w.tuples, def, obj, user);
    }
  }

  lemma NoRewritesWithin(budget: nat, model: Model, tuples: seq<StoredTuple>, def: RelationDef, obj: string,
                         user: string)
    ensures !TtuWithin(0, model, tuples, def.tupleToUserset, obj, user)
    ensures IsLeaf(def) && budget > 0 ==> !ComputedWithin(budget - 1, model, tuples, def.computed, obj, user)
    ensures IsLeaf(def) && budget > 1 ==> !TtuWithin(budget - 2, model, tuples, def.tupleToUserset, obj, user)
  {
  }

  lemma {:induction false} ComputedDecidesWithin(w: World, computed: seq<string>, obj: string, user: string, depth: nat)
    ensures SomeComputed(w, computed, obj, user, depth) <==>
            ComputedWithin(Rank(depth), w.model, w.tuples, computed, obj, user)
    decreases Rank(depth), 2
  {
    hide Tree, Within;
    forall c | c in computed
      ensures Tree(w, obj, c, user, depth, Computed).allowed <==> Within(Rank(depth), w.model, w.tuples, obj, c, user)
    {
      TreeDecidesWithin(w, obj, c, user, depth, Computed);
    }
  }

  lemma {:induction false} TtuDecidesWithin(w: World, ttus: seq<Ttu>, obj: string, user: string, depth: nat)
    ensures SomeTtu(w, ttus, obj, user, depth) <==>
            TtuWithin(Rank(depth + 1), w.model, w.tuples, ttus, obj, user)
    decreases Rank(depth), 3
  {
    hide Tree, Within, SomeTarget, TargetWithin;
    forall ttu | ttu in ttus
      ensures SomeTarget(w, Targets(w.tuples, obj, ttu.tupleset), ttu.relation, user, depth + 1) <==>
              TargetWithin(Rank(depth + 1), w.model, w.tuples, Targets(w.tuples, obj, ttu.tupleset), ttu.relation, user)
    {
      TargetDecidesWithin(w, Targets(w.tuples, obj, ttu.tupleset), ttu.relation, user, depth + 1);
    }
  }

  lemma {:induction false} TargetDecidesWithin(w: World, targets: seq<string>, relation: string, user: string,
                                               depth: nat)
    ensures SomeTarget(w, targets, relation, user, depth) <==>
            TargetWithin(Rank(depth), w.model, w.tuples, targets, relation, user)
    decreases Rank(depth), 2
  {
    hide Tree, Within;
    forall t | t in targets
      ensures Tree(w, t, relation, user, depth, Direct).allowed <==>
              Within(Rank(depth), w.model, w.tuples, t, relation, user)
    {
      TreeDecidesWithin(w, t, relation, user, depth, Direct);
    }
  }

  ghost predicate SomeComputed(w: World, computed: seq<string>, obj: string, user: string, depth: nat) {
    exists c <- computed :: Tree(w, obj, c, user, depth, Computed).allowed
  }

  ghost predicate SomeTarget(w: World, targets: seq<string>, relation: string, user: string, depth: nat) {
    exists t <- targets :: Tree(w, t, relation, user, depth, Direct).allowed
  }

  ghost predicate SomeTtu(w: World, ttus: seq<Ttu>, obj: string, user: string, depth: nat) {
    exists ttu <- ttus :: SomeTarget(w, Targets(w.tuples, obj, ttu.tupleset), ttu.relation, user, depth + 1)
  }

  /** Some branch is allowed iff the direct leaf, a computed one or a target is. */
  lemma BranchesAllowed(w: World, def: RelationDef, obj: string, relation: string, user: string, depth: nat)
    ensures AnyAllowed(Branches(w, def, obj, relation, user, depth)) <==>
      || (def.direct && Find(w.tuples, obj, relation, user).Some?)
      || SomeComputed(w, def.computed, obj, user, depth)
      || SomeTtu(w, def.tupleToUserset, obj, user, depth)
  {
    var direct, computed, ttus := DirectNodes(w, def, obj, relation, user),
      ComputedNodes(w, obj, def.computed, user, depth), TtuNodes(w, obj, def.tupleToUserset, user, depth);
    AnyAllowedConcat(direct, computed);
    AnyAllowedConcat(direct + computed, ttus);
    ComputedAllowed(w, def.computed, obj, user, depth);
    TtuAllowed(w, def.tupleToUserset, obj, user, depth);
    assert AnyAllowed(direct) <==> def.direct && direct[0].allowed;
  }

  lemma ComputedAllowed(w: World, computed: seq<string>, obj: string, user: string, depth: nat)
    ensures AnyAllowed(ComputedNodes(w, obj, computed, user, depth)) <==> SomeComputed(w, computed, obj, user, depth)
  {
    var nodes := ComputedNodes(w, obj, computed, user, depth);
    assert forall k | 0 <= k < |computed| :: nodes[k] == Tree(w, obj, computed[k], user, depth, Computed);
  }

  lemma TargetsAllowed(w: World, targets: seq<string>, relation: string, user: string, depth: nat)
    ensures AnyAllowed(TargetNodes(w, targets, relation, user, depth)) <==>
            SomeTarget(w, targets, relation, user, depth)
  {
    var nodes := TargetNodes(w, targets, relation, user, depth);
    assert forall k | 0 <= k < |targets| :: nodes[k] == Tree(w, targets[k], relation, user, depth, Direct);
  }

  lemma TtuAllowed(w: World, ttus: seq<Ttu>, obj: string, user: string, depth: nat)
    ensures AnyAllowed(TtuNodes(w, obj, ttus, user, depth)) <==> SomeTtu(w, ttus, obj, user, depth)
  {
    hide SomeTarget, Targets, Tree;
    var nodes := TtuNodes(w, obj, ttus, user, depth);
    assert forall k | 0 <= k < |ttus| :: nodes[k] == TtuNode(w, obj, ttus[k], user, depth);
    forall k | 0 <= k < |ttus|
      ensures nodes[k].allowed <==>
              SomeTarget(w, Targets(w.tuples, obj, ttus[k].tupleset), ttus[k].relation, user, depth + 1)
    {
      TargetsAllowed(w, Targets(w.tuples, obj, ttus[k].tupleset), ttus[k].relation, user, depth + 1);
    }
  }

  lemma AnyAllowedConcat(x: seq<Node>, y: seq<Node>)
    ensures AnyAllowed(x + y) <==> AnyAllowed(x) || AnyAllowed(y)
  {
    if AnyAllowed(x) {
      var k :| 0 <= k < |x| && x[k].allowed;
      assert (x + y)[k].allowed;
    }
    if AnyAllowed(y) {
      var k :| 0 <= k < |y| && y[k].allowed;
      assert (x + y)[|x| + k].allowed;
    }
  }
}
