/** The playground's check resolver: a depth-capped evaluation of union rewrites over
    the stored tuples, its explanation tree, and its meaning. */
module Resolver {
  import opened Common

  const DEPTH_CAP: nat := 8

  datatype Ttu = Ttu(tupleset: string, relation: string)

  datatype RelationDef = RelationDef(direct: bool, computed: seq<string>, tupleToUserset: seq<Ttu>)

  /** type -> relation -> definition */
  type Model = map<string, map<string, RelationDef>>

  datatype StoredTuple = StoredTuple(
    obj: string, relation: string, user: string,
    tupleId: string, writtenAt: string, writtenBy: string, auditEventId: string)

  /** What a check runs against. */
  datatype World = World(model: Model, tuples: seq<StoredTuple>, provenance: bool)

  /** The part of a reference before its first colon. */
  function TypeOf(ref: string): (r: string)
    ensures r <= ref && ':' !in r && (|r| < |ref| ==> ref[|r|] == ':')
  {
    if ref == [] || ref[0] == ':' then [] else [ref[0]] + TypeOf(ref[1..])
  }

  function Lookup(model: Model, obj: string, relation: string): Option<RelationDef> {
    if TypeOf(obj) in model && relation in model[TypeOf(obj)]
    then Some(model[TypeOf(obj)][relation]) else None
  }

  predicate Says(t: StoredTuple, obj: string, relation: string, user: string) {
    t.obj == obj && t.relation == relation && t.user == user
  }

  /** The first stored tuple for the triple. */
  function Find(tuples: seq<StoredTuple>, obj: string, relation: string, user: string): (r: Option<StoredTuple>)
    ensures r.Some? ==> r.value in tuples && Says(r.value, obj, relation, user)
    ensures r.None? ==> forall t <- tuples :: !Says(t, obj, relation, user)
  {
    if tuples == [] then None
    else if Says(tuples[0], obj, relation, user) then Some(tuples[0])
    else Find(tuples[1..], obj, relation, user)
  }

  /** Users of the tuples of one relation on one object, in stored order. */
  function Targets(tuples: seq<StoredTuple>, obj: string, tupleset: string): (r: seq<string>)
    ensures forall u :: u in r <==> exists t <- tuples :: Says(t, obj, tupleset, u)
  {
    if tuples == [] then []
    else if Says(tuples[0], obj, tupleset, tuples[0].user)
    then [tuples[0].user] + Targets(tuples[1..], obj, tupleset)
    else Targets(tuples[1..], obj, tupleset)
  }

  /** Of several tuples for the triple the first one is found. */
  lemma {:induction false} FindsFirst(tuples: seq<StoredTuple>, obj: string, relation: string, user: string, i: nat)
    requires i < |tuples| && Says(tuples[i], obj, relation, user)
    requires forall j | 0 <= j < i :: !Says(tuples[j], obj, relation, user)
    ensures Find(tuples, obj, relation, user) == Some(tuples[i])
  {
    if i > 0 { FindsFirst(tuples[1..], obj, relation, user, i - 1); }
  }

  /** Targets come in stored order: those of the first tuples, then those of the others. */
  lemma {:induction false} TargetsInOrder(x: seq<StoredTuple>, y: seq<StoredTuple>, obj: string, tupleset: string)
    ensures Targets(x + y, obj, tupleset) == Targets(x, obj, tupleset) + Targets(y, obj, tupleset)
  {
    hide Says, Targets;
    if x == [] {
      assert x + y == y;
      NoTargets(obj, tupleset);
    } else {
      TargetsInOrder(x[1..], y, obj, tupleset);
      assert (x + y)[1..] == x[1..] + y;
      TargetsOfFirst(x, obj, tupleset);
      TargetsOfFirst(x + y, obj, tupleset);
    }
  }

  lemma NoTargets(obj: string, tupleset: string)
    ensures Targets([], obj, tupleset) == []
  {
  }

  lemma TargetsOfFirst(tuples: seq<StoredTuple>, obj: string, tupleset: string)
    requires tuples != []
    ensures Targets(tuples, obj, tupleset) ==
      (if tuples[0].obj == obj && tuples[0].relation == tupleset then [tuples[0].user] else []) +
      Targets(tuples[1..], obj, tupleset)
  {
  }

  // ----- The explanation tree

  datatype Via = Direct | Computed | Union | TupleToUserset

  /** What a node is about: a userset, or one user's membership in it. */
  datatype Label =
    | Userset(obj: string, relation: string)
    | Membership(obj: string, relation: string, user: string)

  datatype Node = Node(
    name: Label, allowed: bool, via: Via, children: seq<Node>,
    provenance: Option<StoredTuple>, truncated: bool)

  predicate AnyAllowed(nodes: seq<Node>) { exists k | 0 <= k < |nodes| :: nodes[k].allowed }

  predicate IsLeaf(def: RelationDef) { def.direct && def.computed == [] && def.tupleToUserset == [] }

  function Leaf(w: World, obj: string, relation: string, user: string, via: Via): Node {
    var hit := Find(w.tuples, obj, relation, user);
    Node(if via == Direct then Membership(obj, relation, user) else Userset(obj, relation),
         hit.Some?, via, [], if w.provenance then hit else None, false)
  }

  /** Levels left below the cap, for termination. */
  function Rank(depth: nat): nat { if depth > DEPTH_CAP then 0 else DEPTH_CAP + 1 - depth }

  function Tree(w: World, obj: string, relation: string, user: string, depth: nat, via: Via): Node
    decreases Rank(depth), 0
  {
    if depth > DEPTH_CAP then Node(Userset(obj, relation), false, via, [], None, true)
    else match Lookup(w.model, obj, relation)
      case None => Node(Userset(obj, relation), false, via, [], None, false)
      case Some(def) =>
        if IsLeaf(def) then Leaf(w, obj, relation, user, via)
        else
          var children := Branches(w, def, obj, relation, user, depth + 1);
          Node(Userset(obj, relation), AnyAllowed(children), if via == Computed then Computed else Union,
               children, None, false)
  }

  function DirectNodes(w: World, def: RelationDef, obj: string, relation: string, user: string): seq<Node> {
    if def.direct then [Leaf(w, obj, relation, user, Direct)] else []
  }

  function Branches(w: World, def: RelationDef, obj: string, relation: string, user: string, depth: nat): seq<Node>
    decreases Rank(depth), 4
  {
    DirectNodes(w, def, obj, relation, user) +
    ComputedNodes(w, obj, def.computed, user, depth) +
    TtuNodes(w, obj, def.tupleToUserset, user, depth)
  }

  function ComputedNodes(w: World, obj: string, relations: seq<string>, user: string, depth: nat): seq<Node>
    decreases Rank(depth), 1
  {
    seq(|relations|, k requires 0 <= k < |relations| => Tree(w, obj, relations[k], user, depth, Computed))
  }

  function TtuNodes(w: World, obj: string, ttus: seq<Ttu>, user: string, depth: nat): seq<Node>
    decreases Rank(depth), 3
  {
    seq(|ttus|, k requires 0 <= k < |ttus| => TtuNode(w, obj, ttus[k], user, depth))
  }

  function TtuNode(w: World, obj: string, ttu: Ttu, user: string, depth: nat): Node
    decreases Rank(depth), 2
  {
    var children := TargetNodes(w, Targets(w.tuples, obj, ttu.tupleset), ttu.relation, user, depth + 1);
    Node(Userset(obj, ttu.tupleset), AnyAllowed(children), TupleToUserset, children, None, false)
  }

  function TargetNodes(w: World, targets: seq<string>, relation: string, user: string, depth: nat): seq<Node>
    decreases Rank(depth), 1
  {
    seq(|targets|, k requires 0 <= k < |targets| => Tree(w, targets[k], relation, user, depth, Direct))
  }

  /** The branches in order: the direct leaf if any, the computed ones, the tuple-to-userset ones. */
  lemma BranchShape(w: World, def: RelationDef, obj: string, relation: string, user: string, depth: nat)
    ensures var branches, d, c := Branches(w, def, obj, relation, user, depth),
                                  (if def.direct then 1 else 0), |def.computed|;
      && |branches| == d + c + |def.tupleToUserset|
      && (def.direct ==> branches[0] == Leaf(w, obj, relation, user, Direct))
      && (forall k | 0 <= k < c :: branches[d + k] == Tree(w, obj, def.computed[k], user, depth, Computed))
      && (forall k | 0 <= k < |def.tupleToUserset| ::
            branches[d + c + k] == TtuNode(w, obj, def.tupleToUserset[k], user, depth))
  {
    hide Tree, TtuNode, Leaf;
  }

  lemma TargetShape(w: World, obj: string, ttu: Ttu, user: string, depth: nat)
    ensures var node, targets := TtuNode(w, obj, ttu, user, depth), Targets(w.tuples, obj, ttu.tupleset);
      && |node.children| == |targets|
      && forall k | 0 <= k < |targets| :: node.children[k] == Tree(w, targets[k], ttu.relation, user, depth + 1, Direct)
  {
    hide Tree;
  }
}
