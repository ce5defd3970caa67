/** Soundness, completeness and monotonicity of a check. */
module ResolverTheorems {
  import opened Common
  import opened Resolver
  import opened ResolverMeaning
  import opened ResolverRun

  /** An allowed node is a derivable fact, however deep it sits. */
  lemma AllowedIsGranted(w: World, obj: string, relation: string, user: string, depth: nat, via: Via)
    requires Tree(w, obj, relation, user, depth, via).allowed
    ensures Granted(w.model, w.tuples, obj, relation, user)
  {
    TreeDecidesWithin(w, obj, relation, user, depth, via);
  }

  lemma {:induction false} NoTruncations(nodes: seq<Node>, k: nat)
    requires TruncationsAll(nodes) == 0 && k < |nodes|
    ensures Truncations(nodes[k]) == 0
  {
    if k < |nodes| - 1 {
      NoTruncations(nodes[..|nodes| - 1], k);
    }
  }

  /** Below an untruncated node nothing is truncated either. */
  lemma UntruncatedBranches(w: World, obj: string, relation: string, user: string, depth: nat, via: Via,
                            def: RelationDef)
    requires Truncations(Tree(w, obj, relation, user, depth, via)) == 0
    requires Lookup(w.model, obj, relation) == Some(def)
    ensures depth <= DEPTH_CAP
    ensures !IsLeaf(def) ==> TruncationsAll(Branches(w, def, obj, relation, user, depth + 1)) == 0
  {
  }

  lemma UntruncatedComputed(w: World, def: RelationDef, obj: string, relation: string, user: string, depth: nat,
                            c: string)
    requires TruncationsAll(Branches(w, def, obj, relation, user, depth)) == 0 && c in def.computed
    ensures Truncations(Tree(w, obj, c, user, depth, Computed)) == 0
  {
    BranchShape(w, def, obj, relation, user, depth);
    hide Tree, Branches;
    var k :| 0 <= k < |def.computed| && def.computed[k] == c;
    NoTruncations(Branches(w, def, obj, relation, user, depth), (if def.direct then 1 else 0) + k);
  }

  lemma UntruncatedTarget(w: World, def: RelationDef, obj: string, relation: string, user: string, depth: nat,
                          ttu: Ttu, target: string)
    requires TruncationsAll(Branches(w, def, obj, relation, user, depth)) == 0
    requires ttu in def.tupleToUserset && target in Targets(w.tuples, obj, ttu.tupleset)
    ensures Truncations(Tree(w, target, ttu.relation, user, depth + 1, Direct)) == 0
  {
    BranchShape(w, def, obj, relation, user, depth);
    TargetShape(w, obj, ttu, user, depth);
    hide Tree, Branches, TtuNode;
    var k :| 0 <= k < |def.tupleToUserset| && def.tupleToUserset[k] == ttu;
    NoTruncations(Branches(w, def, obj, relation, user, depth), (if def.direct then 1 else 0) + |def.computed| + k);
    var i :| 0 <= i < |Targets(w.tuples, obj, ttu.tupleset)| && Targets(w.tuples, obj, ttu.tupleset)[i] == target;
    NoTruncations(TtuNode(w, obj, ttu, user, depth).children, i);
  }

  /** A derivation of any size fits under the cap when the tree was not truncated. */
  lemma {:induction false} UntruncatedFinds(b: nat, w: World, obj: string, relation: string, user: string, depth: nat,
                                            via: Via)
    requires Within(b, w.model, w.tuples, obj, relation, user)
    requires Truncations(Tree(w, obj, relation, user, depth, via)) == 0
    ensures Within(Rank(depth), w.model, w.tuples, obj, relation, user)
    decreases b
  {
    hide Within, Tree, Branches;
    var def, c, ttu, target := LastRewrite(b, w.model, w.tuples, obj, relation, user);
    UntruncatedBranches(w, obj, relation, user, depth, via, def);
    if c.Some? {
      UntruncatedComputed(w, def, obj, relation, user, depth + 1, c.value);
      UntruncatedFinds(b - 1, w, obj, c.value, user, depth + 1, Computed);
      WithinByComputed(Rank(depth + 1), w.model, w.tuples, obj, relation, user, def, c.value);
    } else if ttu.Some? {
      UntruncatedTarget(w, def, obj, relation, user, depth + 1, ttu.value, target);
      UntruncatedFinds(b - 2, w, target, ttu.value.relation, user, depth + 2, Direct);
      UntruncatedBranches(w, target, ttu.value.relation, user, depth + 2, Direct,
                          Lookup(w.model, target, ttu.value.relation).value);
      WithinByTtu(Rank(depth + 2), w.model, w.tuples, obj, relation, user, def, ttu.value, target);
    } else {
      WithinByTuple(Rank(depth), w.model, w.tuples, obj, relation, user, def);
    }
  }

  /** When nothing was truncated, allowed is the same as derivable: a denial is a
      proof that no chain of rewrites of any length grants the relation. */
  lemma UntruncatedIsExact(w: World, obj: string, relation: string, user: string, depth: nat, via: Via)
    requires Truncations(Tree(w, obj, relation, user, depth, via)) == 0
    ensures Tree(w, obj, relation, user, depth, via).allowed <==> Granted(w.model, w.tuples, obj, relation, user)
  {
    TreeDecidesWithin(w, obj, relation, user, depth, via);
    if b: nat :| Within(b, w.model, w.tuples, obj, relation, user) {
      UntruncatedFinds(b, w, obj, relation, user, depth, via);
    }
  }

  /** What an explanation answers: allowed is always right, and without a truncation so is denied. */
  lemma ResponseDecides(w: World, check: Check, r: Response)
    requires r.tree == Tree(w, check.obj, check.relation, check.user, 1, Direct) && Agrees(w, check, r)
    ensures r.allowed ==> Granted(w.model, w.tuples, check.obj, check.relation, check.user)
    ensures !r.depthCapHit ==> (r.allowed <==> Granted(w.model, w.tuples, check.obj, check.relation, check.user))
  {
    hide Tree, Granted, FirstHit, Size, Height;
    if r.allowed { AllowedIsGranted(w, check.obj, check.relation, check.user, 1, Direct); }
    if !r.depthCapHit { UntruncatedIsExact(w, check.obj, check.relation, check.user, 1, Direct); }
  }

  // ----- Monotonicity

  ghost predicate DefExtends(d: RelationDef, e: RelationDef) {
    && (d.direct ==> e.direct)
    && (forall c <- d.computed :: c in e.computed)
    && (forall t <- d.tupleToUserset :: t in e.tupleToUserset)
  }

  /** Relations and rewrites may be added, in any place; none is taken away. */
  ghost predicate ModelExtends(m: Model, n: Model) {
    forall t, r :: t in m && r in m[t] ==> t in n && r in n[t] && DefExtends(m[t][r], n[t][r])
  }

  /** Every triple stored before is stored after. */
  ghost predicate TuplesExtend(s: seq<StoredTuple>, t: seq<StoredTuple>) {
    forall x <- s :: exists y <- t :: Says(y, x.obj, x.relation, x.user)
  }

  lemma {:induction false} WithinMonotone(b: nat, c: nat, m: Model, n: Model, s: seq<StoredTuple>,
                                          t: seq<StoredTuple>, obj: string, relation: string, user: string)
    requires b <= c && ModelExtends(m, n) && TuplesExtend(s, t)
    requires Within(b, m, s, obj, relation, user)
    ensures Within(c, n, t, obj, relation, user)
    decreases b
  {
    hide Within, Find, Targets;
    var def, comp, ttu, target := LastRewrite(b, m, s, obj, relation, user);
    assert DefExtends(m[TypeOf(obj)][relation], n[TypeOf(obj)][relation]);
    var def' := Lookup(n, obj, relation).value;
    if comp.Some? {
      WithinMonotone(b - 1, c - 1, m, n, s, t, obj, comp.value, user);
      WithinByComputed(c - 1, n, t, obj, relation, user, def', comp.value);
    } else if ttu.Some? {
      WithinMonotone(b - 2, c - 2, m, n, s, t, target, ttu.value.relation, user);
      var x :| x in s && Says(x, obj, ttu.value.tupleset, target);
      assert exists y <- t :: Says(y, x.obj, x.relation, x.user);
      WithinByTtu(c - 2, n, t, obj, relation, user, def', ttu.value, target);
    } else {
      var x := Find(s, obj, relation, user).value;
      assert exists y <- t :: Says(y, x.obj, x.relation, x.user);
      WithinByTuple(c, n, t, obj, relation, user, def');
    }
  }

  /** More tuples, more rewrites or a shallower start never turn allowed into denied,
      despite the cap and the shortcut for directly assigned relations. */
  lemma AllowedIsMonotone(v: World, w: World, obj: string, relation: string, user: string, depth: nat, via: Via,
                          depth': nat, via': Via)
    requires ModelExtends(v.model, w.model) && TuplesExtend(v.tuples, w.tuples) && depth' <= depth
    requires Tree(v, obj, relation, user, depth, via).allowed
    ensures Tree(w, obj, relation, user, depth', via').allowed
  {
    TreeDecidesWithin(v, obj, relation, user, depth, via);
    TreeDecidesWithin(w, obj, relation, user, depth', via');
    WithinMonotone(Rank(depth), Rank(depth'), v.model, w.model, v.tuples, w.tuples, obj, relation, user);
  }

  // ----- batchCheck

  function BatchAllowed(w: World, checks: seq<Check>): seq<bool> {
    seq(|checks|, k requires 0 <= k < |checks| =>
      Tree(w.(provenance := false), checks[k].obj, checks[k].relation, checks[k].user, 1, Direct).allowed)
  }

  /** A batch answers each check as a single explanation with provenance would. */
  lemma BatchAgrees(w: World, checks: seq<Check>, k: nat)
    requires k < |checks|
    ensures BatchAllowed(w, checks)[k] == Tree(w, checks[k].obj, checks[k].relation, checks[k].user, 1, Direct).allowed
  {
    TreeDecidesWithin(w, checks[k].obj, checks[k].relation, checks[k].user, 1, Direct);
    TreeDecidesWithin(w.(provenance := false), checks[k].obj, checks[k].relation, checks[k].user, 1, Direct);
  }

  // ----- What the cap costs

  function Name(k: nat): string { seq(k, _ => 'r') }

  /** Relation k is relation k - 1; relation 0 is assigned directly. */
  function ChainDefs(n: nat): (r: map<string, RelationDef>)
    ensures forall k: nat :: k <= n <==> Name(k) in r
    ensures forall k: nat :: k <= n ==>
      r[Name(k)] == if k == 0 then RelationDef(true, [], []) else RelationDef(false, [Name(k - 1)], [])
  {
    assert forall k: nat :: |Name(k)| == k;
    if n == 0 then map[Name(0) := RelationDef(true, [], [])]
    else ChainDefs(n - 1)[Name(n) := RelationDef(false, [Name(n - 1)], [])]
  }

  function ChainWorld(n: nat): World {
    World(map["t" := ChainDefs(n)], [StoredTuple("t:x", Name(0), "u", "", "", "", "")], false)
  }

  lemma {:induction false} ChainNeeds(b: nat, n: nat, k: nat)
    requires k <= n
    ensures var w := ChainWorld(n);
      Within(b, w.model, w.tuples, "t:x", Name(k), "u") <==> b > k
    decreases k
  {
    var w := ChainWorld(n);
    assert TypeOf("t:x") == "t" by { assert TypeOf(":x") == ""; assert "t:x"[1..] == ":x"; }
    var def := Lookup(w.model, "t:x", Name(k)).value;
    assert |Name(k)| == k && |Name(0)| == 0;
    if k > 0 && b > 0 {
      ChainNeeds(b - 1, n, k - 1);
      assert ComputedWithin(b - 1, w.model, w.tuples, def.computed, "t:x", "u") <==>
             Within(b - 1, w.model, w.tuples, "t:x", Name(k - 1), "u");
    }
  }

  /** A denial after truncation proves nothing: a chain of computed relations is always
      granted, and is answered correctly exactly while it has fewer rewrites than the cap. */
  lemma CapLosesLongChains(k: nat)
    ensures var w := ChainWorld(k);
      && Granted(w.model, w.tuples, "t:x", Name(k), "u")
      && (Tree(w, "t:x", Name(k), "u", 1, Direct).allowed <==> k < DEPTH_CAP)
  {
    var w := ChainWorld(k);
    ChainNeeds(k + 1, k, k);
    ChainNeeds(DEPTH_CAP, k, k);
    TreeDecidesWithin(w, "t:x", Name(k), "u", 1, Direct);
  }
}
