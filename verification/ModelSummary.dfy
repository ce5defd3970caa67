/** The rewrite depth of an authorization model: a memoised depth-first search with a
    cycle guard, over parsed types and relations. */
module ModelSummary {
  import opened Common

  /** "relation from via" */
  datatype Ttu = Ttu(relation: string, via: string)

  datatype RelationDef = RelationDef(name: string, direct: seq<string>, computed: seq<string>, tupleToUserset: seq<Ttu>)

  datatype TypeDef = TypeDef(name: string, relations: seq<RelationDef>)

  type Model = seq<TypeDef>

  /** A relation on its type. */
  datatype Node = Node(owner: TypeDef, rel: RelationDef)

  type Key = (string, string)

  function KeyOf(n: Node): Key { (n.owner.name, n.rel.name) }

  ghost predicate InModel(model: Model, n: Node) { n.owner in model && n.rel in n.owner.relations }

  /** The first relation of that name. */
  function FindRelation(relations: seq<RelationDef>, name: string): (r: Option<RelationDef>)
    ensures r.Some? ==> r.value in relations && r.value.name == name
    ensures r.None? ==> forall x <- relations :: x.name != name
  {
    if relations == [] then None
    else if relations[0].name == name then Some(relations[0])
    else FindRelation(relations[1..], name)
  }

  /** The last type of that name: later entries overwrite earlier ones in the name map. */
  function FindType(model: Model, name: string): (r: Option<TypeDef>)
    ensures r.Some? ==> r.value in model && r.value.name == name
    ensures r.None? ==> forall t <- model :: t.name != name
  {
    if model == [] then None
    else if model[|model| - 1].name == name then Some(model[|model| - 1])
    else FindType(model[..|model| - 1], name)
  }

  /** A subject type without its "#relation" or ":id" part. */
  function BaseName(name: string): (r: string)
    ensures r <= name && '#' !in r && ':' !in r && (|r| < |name| ==> name[|r|] in "#:")
  {
    if name == [] || name[0] == '#' || name[0] == ':' then [] else [name[0]] + BaseName(name[1..])
  }

  /** Of several relations or types of one name the first relation and the last type are found. */
  lemma {:induction false} FindsFirstRelation(relations: seq<RelationDef>, name: string, i: nat)
    requires i < |relations| && relations[i].name == name && forall j | 0 <= j < i :: relations[j].name != name
    ensures FindRelation(relations, name) == Some(relations[i])
  {
    if i > 0 { FindsFirstRelation(relations[1..], name, i - 1); }
  }

  lemma {:induction false} FindsLastType(model: Model, name: string, i: nat)
    requires i < |model| && model[i].name == name && forall j | i < j < |model| :: model[j].name != name
    ensures FindType(model, name) == Some(model[i])
  {
    if i < |model| - 1 { FindsLastType(model[..|model| - 1], name, i); }
  }

  // ----- The rewrite graph

  function ComputedTarget(n: Node, name: string): Option<Node> {
    match FindRelation(n.owner.relations, name)
    case None => None
    case Some(r) => Some(Node(n.owner, r))
  }

  function ViaTarget(model: Model, relation: string, subject: string): Option<Node> {
    match FindType(model, BaseName(subject))
    case None => None
    case Some(t) =>
      match FindRelation(t.relations, relation)
      case None => None
      case Some(r) => Some(Node(t, r))
  }

  /** The subject types reached through a relation; none when it is not defined. */
  function Subjects(n: Node, via: string): seq<string> {
    match FindRelation(n.owner.relations, via)
    case None => []
    case Some(r) => r.direct
  }

  /** One userset rewrite leads from n to m. */
  ghost predicate Edge(model: Model, n: Node, m: Node) {
    || (exists c <- n.rel.computed :: ComputedTarget(n, c) == Some(m))
    || (exists t <- n.rel.tupleToUserset, s <- Subjects(n, t.via) :: ViaTarget(model, t.relation, s) == Some(m))
  }

  /** A chain of rewrites; it has |p| - 1 steps. */
  ghost predicate Chain(model: Model, p: seq<Node>) {
    p != [] && forall i | 0 <= i < |p| - 1 :: Edge(model, p[i], p[i + 1])
  }

  /** d is the length of a longest chain of rewrites from n. */
  ghost predicate IsLongest(model: Model, n: Node, d: nat) {
    && (exists p :: Chain(model, p) && p[0] == n && |p| == d + 1)
    && (forall p :: Chain(model, p) && p[0] == n ==> |p| <= d + 1)
  }

  ghost predicate Acyclic(model: Model) {
    forall p :: Chain(model, p) && |p| > 1 && InModel(model, p[0]) ==> p[0] != p[|p| - 1]
  }

  ghost predicate DistinctTypes(model: Model) {
    forall i, j | 0 <= i < j < |model| :: model[i].name != model[j].name
  }

  ghost predicate DistinctRelations(relations: seq<RelationDef>) {
    forall i, j | 0 <= i < j < |relations| :: relations[i].name != relations[j].name
  }

  ghost predicate NoDuplicates(model: Model) {
    DistinctTypes(model) && forall i | 0 <= i < |model| :: DistinctRelations(model[i].relations)
  }

  lemma KeysAreUnique(model: Model, a: Node, b: Node)
    requires NoDuplicates(model) && InModel(model, a) && InModel(model, b) && KeyOf(a) == KeyOf(b)
    ensures a == b
  {
    var i :| 0 <= i < |model| && model[i] == a.owner;
    var j :| 0 <= j < |model| && model[j] == b.owner;
    assert i == j;
    var p :| 0 <= p < |a.owner.relations| && a.owner.relations[p] == a.rel;
    var q :| 0 <= q < |a.owner.relations| && a.owner.relations[q] == b.rel;
    assert p == q;
  }

  // ----- Keys, and how many there are

  function TypeKeys(name: string, relations: seq<RelationDef>): set<Key> {
    if relations == [] then {} else {(name, relations[0].name)} + TypeKeys(name, relations[1..])
  }

  function Keys(model: Model): set<Key> {
    if model == [] then {} else TypeKeys(model[0].name, model[0].relations) + Keys(model[1..])
  }

  function RelationCount(model: Model): nat {
    if model == [] then 0 else |model[0].relations| + RelationCount(model[1..])
  }

  lemma {:induction false} TypeKeysFacts(name: string, relations: seq<RelationDef>)
    ensures |TypeKeys(name, relations)| <= |relations|
    ensures forall r <- relations :: (name, r.name) in TypeKeys(name, relations)
  {
    if relations != [] {
      TypeKeysFacts(name, relations[1..]);
    }
  }

  lemma {:induction false} KeysFacts(model: Model)
    ensures |Keys(model)| <= RelationCount(model)
    ensures forall n: Node | InModel(model, n) :: KeyOf(n) in Keys(model)
  {
    if model != [] {
      KeysFacts(model[1..]);
      TypeKeysFacts(model[0].name, model[0].relations);
      forall n: Node | InModel(model, n) ensures KeyOf(n) in Keys(model) {
        assert n.owner == model[0] || InModel(model[1..], n);
      }
    }
  }

  // ----- Longest chains, one step at a time

  lemma ChainTail(model: Model, p: seq<Node>)
    requires Chain(model, p) && |p| > 1
    ensures Chain(model, p[1..]) && Edge(model, p[0], p[1])
  {
    assert Edge(model, p[0], p[0 + 1]);
    forall i | 0 <= i < |p[1..]| - 1 ensures Edge(model, p[1..][i], p[1..][i + 1]) {
      assert Edge(model, p[i + 1], p[i + 1 + 1]);
    }
  }

  lemma ChainCons(model: Model, n: Node, p: seq<Node>)
    requires Chain(model, p) && Edge(model, n, p[0])
    ensures Chain(model, [n] + p)
  {
    var q := [n] + p;
    forall i | 0 <= i < |q| - 1 ensures Edge(model, q[i], q[i + 1]) {
      if i > 0 { assert Edge(model, p[i - 1], p[i - 1 + 1]); }
    }
  }

  /** depth covers every rewrite whose target is among the ones seen so far. */
  ghost predicate Covers(model: Model, depth: nat, m: Node) {
    forall p :: Chain(model, p) && p[0] == m ==> |p| <= depth
  }

  /** depth is 0 or the length of a chain from n through one of its targets. */
  ghost predicate Attained(model: Model, n: Node, depth: nat) {
    depth == 0 || exists p :: Chain(model, p) && p[0] == n && |p| == depth + 1
  }

  ghost predicate CoversTarget(model: Model, depth: nat, m: Option<Node>) {
    m.Some? ==> Covers(model, depth, m.value)
  }

  ghost predicate CoversComputed(model: Model, n: Node, depth: nat) {
    forall c <- n.rel.computed :: CoversTarget(model, depth, ComputedTarget(n, c))
  }

  ghost predicate CoversSubjects(model: Model, n: Node, ttu: Ttu, depth: nat) {
    forall s <- Subjects(n, ttu.via) :: CoversTarget(model, depth, ViaTarget(model, ttu.relation, s))
  }

  ghost predicate CoversTtus(model: Model, n: Node, depth: nat) {
    forall t <- n.rel.tupleToUserset :: CoversSubjects(model, n, t, depth)
  }

  lemma CoversMore(model: Model, d: nat, e: nat, m: Option<Node>)
    requires CoversTarget(model, d, m) && d <= e
    ensures CoversTarget(model, e, m)
  {
  }

  lemma CoversAllTargets(model: Model, n: Node, d: nat, e: nat)
    requires CoversComputed(model, n, d) && d <= e && CoversTtus(model, n, e)
    ensures forall m: Node | Edge(model, n, m) :: Covers(model, e, m)
  {
    forall m: Node | Edge(model, n, m) ensures Covers(model, e, m) {
      hide Covers, ComputedTarget, ViaTarget, Subjects;
      if c :| c in n.rel.computed && ComputedTarget(n, c) == Some(m) {
        assert CoversTarget(model, d, ComputedTarget(n, c));
        CoversMore(model, d, e, Some(m));
      } else {
        var t, s :| t in n.rel.tupleToUserset && s in Subjects(n, t.via) && ViaTarget(model, t.relation, s) == Some(m);
        assert CoversSubjects(model, n, t, e);
      }
    }
  }

  lemma LongestFromTargets(model: Model, n: Node, depth: nat)
    requires Attained(model, n, depth)
    requires forall m: Node | Edge(model, n, m) :: Covers(model, depth, m)
    ensures IsLongest(model, n, depth)
  {
    assert Chain(model, [n]);
    forall p | Chain(model, p) && p[0] == n ensures |p| <= depth + 1 {
      if |p| > 1 {
        ChainTail(model, p);
        assert Covers(model, depth, p[1]);
      }
    }
  }

  /** Taking in one more target. */
  lemma MaxStep(model: Model, n: Node, m: Node, depth: nat, d: nat)
    requires Attained(model, n, depth) && Edge(model, n, m) && IsLongest(model, m, d)
    ensures Attained(model, n, Max(depth, 1 + d)) && Covers(model, Max(depth, 1 + d), m)
  {
    var p :| Chain(model, p) && p[0] == m && |p| == d + 1;
    ChainCons(model, n, p);
    assert ([n] + p)[0] == n && |[n] + p| == d + 2;
  }

  lemma ChainSnoc(model: Model, p: seq<Node>, m: Node)
    requires Chain(model, p) && Edge(model, p[|p| - 1], m)
    ensures Chain(model, p + [m])
  {
    var q := p + [m];
    forall i | 0 <= i < |q| - 1 ensures Edge(model, q[i], q[i + 1]) {
      if i < |p| - 1 { assert Edge(model, p[i], p[i + 1]); }
    }
  }

  /** A chain of at least one rewrite. */
  ghost predicate Leads(model: Model, n: Node, m: Node) {
    exists p :: Chain(model, p) && |p| > 1 && p[0] == n && p[|p| - 1] == m
  }

  lemma LeadsOn(model: Model, v: Node, n: Node, m: Node)
    requires (v == n || Leads(model, v, n)) && Edge(model, n, m)
    ensures Leads(model, v, m)
  {
    if v == n {
      assert Chain(model, [n, m]);
      assert |[n, m]| > 1 && [n, m][0] == n && [n, m][|[n, m]| - 1] == m;
    } else {
      var p :| Chain(model, p) && |p| > 1 && p[0] == v && p[|p| - 1] == n;
      ChainSnoc(model, p, m);
      assert (p + [m])[0] == v && (p + [m])[|p + [m]| - 1] == m;
    }
  }

  // ----- summarize

  ghost predicate Good(model: Model) { Acyclic(model) && NoDuplicates(model) }

  ghost predicate Bounded(memo: map<Key, nat>) { forall k | k in memo :: memo[k] <= |memo| }

  ghost predicate Exact(model: Model, memo: map<Key, nat>) {
    forall n: Node | InModel(model, n) && KeyOf(n) in memo :: IsLongest(model, n, memo[KeyOf(n)])
  }

  lemma BoundedGrows(m: map<Key, nat>, k: Key, v: nat)
    requires Bounded(m) && k !in m && v <= |m| + 1
    ensures Bounded(m[k := v]) && |m[k := v]| == |m| + 1 && m[k := v].Keys == m.Keys + {k}
  {
    assert m[k := v].Keys == m.Keys + {k};
    assert |m| == |m.Keys| && |m[k := v]| == |m[k := v].Keys|;
  }

  lemma ExactGrows(model: Model, memo: map<Key, nat>, n: Node, depth: nat)
    requires NoDuplicates(model) && Exact(model, memo) && InModel(model, n) && IsLongest(model, n, depth)
    ensures Exact(model, memo[KeyOf(n) := depth])
  {
    hide IsLongest;
    forall m: Node | InModel(model, m) && KeyOf(m) == KeyOf(n) ensures m == n {
      KeysAreUnique(model, m, n);
    }
    hide InModel, NoDuplicates;
  }

  class Search {
    const model: Model
    var memo: map<Key, nat>
    var visiting: set<Key>

    constructor (model: Model)
      ensures this.model == model && Valid() && visiting == {}
    {
      this.model := model;
      memo, visiting := map[], {};
    }

    /** The memo never holds a depth larger than itself; on a model that is acyclic and
        without duplicates it holds the lengths of longest chains. */
    ghost predicate Valid()
      reads this
    {
      && memo.Keys <= Keys(model) && visiting <= Keys(model) && memo.Keys !! visiting
      && Bounded(memo) && (Good(model) ==> Exact(model, memo))
    }

    /** Every relation being visited leads to n. */
    ghost predicate AllLeadTo(n: Node)
      reads this
    {
      forall v: Node | InModel(model, v) && KeyOf(v) in visiting :: Leads(model, v, n)
    }

    /** n is on top of the stack of relations being visited. */
    ghost predicate Open(n: Node)
      reads this
    {
      && Valid() && InModel(model, n) && KeyOf(n) in visiting
      && (Good(model) ==>
            forall v: Node | InModel(model, v) && KeyOf(v) in visiting :: v == n || Leads(model, v, n))
    }

    /** depth is right for the targets of n taken in so far. */
    ghost predicate Depth(n: Node, depth: nat)
      reads this
    {
      depth <= |memo| + 1 && (Good(model) ==> Attained(model, n, depth))
    }

    method DepthOf(n: Node) returns (d: nat)
      requires Valid() && InModel(model, n) && (Good(model) ==> AllLeadTo(n))
      modifies this
      ensures Valid() && visiting == old(visiting) && old(|memo|) <= |memo|
      ensures if KeyOf(n) in visiting then d == 0 else KeyOf(n) in memo && d == memo[KeyOf(n)]
      ensures Good(model) ==> IsLongest(model, n, d)
      decreases |Keys(model) - visiting|, 4
    {
      KeysFacts(model);
      hide Keys, Chain, IsLongest, Attained, NoDuplicates, CoversComputed, CoversTtus, Leads;
      var key := KeyOf(n);
      if key in memo {
        return memo[key];
      }
      if key in visiting {
        NotOnStack(n);
        return 0;
      }
      ghost var outer := visiting;
      visiting := visiting + {key};
      assert Keys(model) - visiting < Keys(model) - outer;
      Opened(n, key);
      var computed := ScanComputed(n);
      var depth := ScanTtus(n, computed);
      visiting := visiting - {key};
      assert visiting == outer;
      if Good(model) {
        CoversAllTargets(model, n, computed, depth);
        LongestFromTargets(model, n, depth);
      }
      Memoise(n, depth);
      return depth;
    }

    /** On an acyclic model the cycle guard never fires. */
    lemma NotOnStack(n: Node)
      requires InModel(model, n) && (Good(model) ==> AllLeadTo(n)) && KeyOf(n) in visiting
      ensures !Good(model)
    {
      assert AllLeadTo(n) ==> Leads(model, n, n);
    }

    /** Pushing n on the stack. */
    lemma Opened(n: Node, key: Key)
      requires KeyOf(n) == key && Valid() && InModel(model, n) && key in visiting
      requires Good(model) ==>
        forall v: Node | InModel(model, v) && KeyOf(v) in visiting - {key} :: Leads(model, v, n)
      ensures Open(n) && Depth(n, 0)
    {
      if Good(model) {
        forall v: Node | InModel(model, v) && KeyOf(v) == key ensures v == n {
          KeysAreUnique(model, v, n);
        }
      }
    }

    method Memoise(n: Node, depth: nat)
      requires Valid() && InModel(model, n) && KeyOf(n) in Keys(model) - visiting && KeyOf(n) !in memo
      requires depth <= |memo| + 1 && (Good(model) ==> IsLongest(model, n, depth))
      modifies this`memo
      ensures Valid() && memo == old(memo)[KeyOf(n) := depth] && |memo| == old(|memo|) + 1
    {
      if Good(model) {
        ExactGrows(model, memo, n, depth);
      }
      BoundedGrows(memo, KeyOf(n), depth);
      hide Good, Exact, Bounded, IsLongest, Keys;
      memo := memo[KeyOf(n) := depth];
    }

    /** Takes one target of n into its depth. */
    method TakeIn(n: Node, m: Node, depth: nat) returns (d: nat)
      requires Open(n) && InModel(model, m) && Edge(model, n, m) && Depth(n, depth)
      modifies this
      ensures Open(n) && visiting == old(visiting) && old(|memo|) <= |memo|
      ensures Depth(n, d) && depth <= d && (Good(model) ==> Covers(model, d, m))
      decreases |Keys(model) - visiting|, 5
    {
      if Good(model) {
        forall v: Node | InModel(model, v) && KeyOf(v) in visiting ensures Leads(model, v, m) {
          LeadsOn(model, v, n, m);
        }
      }
      var t := DepthOf(m);
      d := Max(depth, 1 + t);
      if Good(model) {
        MaxStep(model, n, m, depth, t);
      }
    }

    method ScanComputed(n: Node) returns (depth: nat)
      requires Open(n) && Depth(n, 0)
      modifies this
      ensures Open(n) && visiting == old(visiting) && old(|memo|) <= |memo| && Depth(n, depth)
      ensures Good(model) ==> CoversComputed(model, n, depth)
      decreases |Keys(model) - visiting|, 6
    {
      hide Good, Covers, Edge, Keys, ComputedTarget;
      depth := 0;
      for i := 0 to |n.rel.computed|
        invariant Open(n) && visiting == old(visiting) && old(|memo|) <= |memo| && Depth(n, depth)
        invariant Good(model) ==>
          forall j | 0 <= j < i :: CoversTarget(model, depth, ComputedTarget(n, n.rel.computed[j]))
      {
        var target := ComputedTarget(n, n.rel.computed[i]);
        if target.Some? {
          ComputedIsEdge(model, n, n.rel.computed[i]);
          ghost var before := depth;
          depth := TakeIn(n, target.value, depth);
          if Good(model) {
            forall j | 0 <= j < i ensures CoversTarget(model, depth, ComputedTarget(n, n.rel.computed[j])) {
              CoversMore(model, before, depth, ComputedTarget(n, n.rel.computed[j]));
            }
          }
        }
      }
    }

    method ScanTtus(n: Node, before: nat) returns (depth: nat)
      requires Open(n) && Depth(n, before)
      modifies this
      ensures Open(n) && visiting == old(visiting) && old(|memo|) <= |memo| && Depth(n, depth) && before <= depth
      ensures Good(model) ==> CoversTtus(model, n, depth)
      decreases |Keys(model) - visiting|, 7
    {
      hide Good, Covers, Edge, Keys, CoversSubjects, Open, Depth;
      depth := before;
      for i := 0 to |n.rel.tupleToUserset|
        invariant Open(n) && visiting == old(visiting) && old(|memo|) <= |memo| && Depth(n, depth)
        invariant before <= depth
        invariant Good(model) ==> forall j | 0 <= j < i :: CoversSubjects(model, n, n.rel.tupleToUserset[j], depth)
      {
        ghost var start := depth;
        depth := ScanSubjects(n, n.rel.tupleToUserset[i], depth);
        if Good(model) {
          forall j | 0 <= j < i ensures CoversSubjects(model, n, n.rel.tupleToUserset[j], depth) {
            SubjectsMore(model, n, n.rel.tupleToUserset[j], start, depth);
          }
        }
      }
    }

    method ScanSubjects(n: Node, ttu: Ttu, before: nat) returns (depth: nat)
      requires Open(n) && Depth(n, before) && ttu in n.rel.tupleToUserset
      modifies this
      ensures Open(n) && visiting == old(visiting) && old(|memo|) <= |memo| && Depth(n, depth) && before <= depth
      ensures Good(model) ==> CoversSubjects(model, n, ttu, depth)
      decreases |Keys(model) - visiting|, 6
    {
      hide Good, Covers, Edge, Keys, ViaTarget, Subjects, Open, Depth;
      var subjects := Subjects(n, ttu.via);
      depth := before;
      for i := 0 to |subjects|
        invariant Open(n) && visiting == old(visiting) && old(|memo|) <= |memo| && Depth(n, depth)
        invariant before <= depth
        invariant Good(model) ==>
          forall j | 0 <= j < i :: CoversTarget(model, depth, ViaTarget(model, ttu.relation, subjects[j]))
      {
        var target := ViaTarget(model, ttu.relation, subjects[i]);
        if target.Some? {
          ViaIsEdge(model, n, ttu, subjects[i]);
          ghost var start := depth;
          depth := TakeIn(n, target.value, depth);
          if Good(model) {
            forall j | 0 <= j < i ensures CoversTarget(model, depth, ViaTarget(model, ttu.relation, subjects[j])) {
              CoversMore(model, start, depth, ViaTarget(model, ttu.relation, subjects[j]));
            }
          }
        }
      }
    }
  }

  lemma ComputedIsEdge(model: Model, n: Node, c: string)
    requires InModel(model, n) && c in n.rel.computed && ComputedTarget(n, c).Some?
    ensures InModel(model, ComputedTarget(n, c).value) && Edge(model, n, ComputedTarget(n, c).value)
  {
  }

  lemma ViaIsEdge(model: Model, n: Node, ttu: Ttu, s: string)
    requires ttu in n.rel.tupleToUserset && s in Subjects(n, ttu.via) && ViaTarget(model, ttu.relation, s).Some?
    ensures InModel(model, ViaTarget(model, ttu.relation, s).value)
    ensures Edge(model, n, ViaTarget(model, ttu.relation, s).value)
  {
  }

  lemma SubjectsMore(model: Model, n: Node, ttu: Ttu, d: nat, e: nat)
    requires CoversSubjects(model, n, ttu, d) && d <= e
    ensures CoversSubjects(model, n, ttu, e)
  {
    forall s | s in Subjects(n, ttu.via) ensures CoversTarget(model, e, ViaTarget(model, ttu.relation, s)) {
      CoversMore(model, d, e, ViaTarget(model, ttu.relation, s));
    }
  }

  /** depth bounds every chain from a relation of t. */
  ghost predicate CoversType(model: Model, t: TypeDef, depth: nat) {
    forall r <- t.relations :: Covers(model, depth + 1, Node(t, r))
  }

  /** depth is the length of some chain in the model, or 0. */
  ghost predicate Occurs(model: Model, depth: nat) {
    depth == 0 || exists p :: Chain(model, p) && InModel(model, p[0]) && |p| == depth + 1
  }

  ghost predicate LongestInModel(model: Model, depth: nat) {
    Occurs(model, depth) && forall p :: Chain(model, p) && InModel(model, p[0]) ==> |p| <= depth + 1
  }

  lemma TypeMore(model: Model, t: TypeDef, d: nat, e: nat)
    requires CoversType(model, t, d) && d <= e
    ensures CoversType(model, t, e)
  {
  }

  lemma {:induction false} SubsetSize<T>(a: set<T>, b: set<T>)
    requires a <= b
    ensures |a| <= |b|
  {
    if a != {} {
      var x :| x in a;
      SubsetSize(a - {x}, b - {x});
    }
  }

  lemma TakeLongest(model: Model, n: Node, depth: nat, d: nat)
    requires Occurs(model, depth) && InModel(model, n) && IsLongest(model, n, d)
    ensures Occurs(model, Max(depth, d)) && Covers(model, Max(depth, d) + 1, n)
  {
    var p :| Chain(model, p) && p[0] == n && |p| == d + 1;
  }

  method SummarizeType(search: Search, t: TypeDef, before: nat) returns (depth: nat)
    requires search.Valid() && search.visiting == {} && t in search.model && before <= |search.memo|
    requires Good(search.model) ==> Occurs(search.model, before)
    modifies search
    ensures search.Valid() && search.visiting == {} && before <= depth <= |search.memo|
    ensures Good(search.model) ==> Occurs(search.model, depth) && CoversType(search.model, t, depth)
  {
    hide Good, Chain, IsLongest, Covers, Occurs;
    depth := before;
    for i := 0 to |t.relations|
      invariant search.Valid() && search.visiting == {} && before <= depth <= |search.memo|
      invariant Good(search.model) ==> Occurs(search.model, depth)
      invariant Good(search.model) ==> forall j | 0 <= j < i :: Covers(search.model, depth + 1, Node(t, t.relations[j]))
    {
      var n := Node(t, t.relations[i]);
      var d := search.DepthOf(n);
      if Good(search.model) {
        TakeLongest(search.model, n, depth, d);
        forall j | 0 <= j < i ensures Covers(search.model, Max(depth, d) + 1, Node(t, t.relations[j])) {
          CoversMore(search.model, depth + 1, Max(depth, d) + 1, Some(Node(t, t.relations[j])));
        }
      }
      depth := Max(depth, d);
    }
  }

  /** Terminates on every model, cyclic ones included; the depth never exceeds the number
      of relations, and without cycles and duplicates it is the longest rewrite chain. */
  method Summarize(model: Model) returns (types: nat, relations: nat, depth: nat)
    ensures types == |model| && relations == RelationCount(model) && depth <= relations
    ensures Good(model) ==> LongestInModel(model, depth)
  {
    hide Good;
    var search := new Search(model);
    types, relations, depth := |model|, 0, 0;
    for i := 0 to |model|
      invariant search.model == model && search.Valid() && search.visiting == {} && depth <= |search.memo|
      invariant relations + RelationCount(model[i..]) == RelationCount(model)
      invariant Good(model) ==> Occurs(model, depth) && forall j | 0 <= j < i :: CoversType(model, model[j], depth)
    {
      assert model[i..][1..] == model[i + 1..];
      relations := relations + |model[i].relations|;
      ghost var before := depth;
      depth := SummarizeType(search, model[i], depth);
      if Good(model) {
        forall j | 0 <= j < i ensures CoversType(model, model[j], depth) {
          TypeMore(model, model[j], before, depth);
        }
      }
    }
    KeysFacts(model);
    SubsetSize(search.memo.Keys, Keys(model));
    if Good(model) {
      forall p: seq<Node> | Chain(model, p) && InModel(model, p[0]) ensures |p| <= depth + 1 {
        var j :| 0 <= j < |model| && model[j] == p[0].owner;
        assert CoversType(model, model[j], depth);
        assert Covers(model, depth + 1, p[0]);
      }
    }
  }
}
