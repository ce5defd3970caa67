/** The canonical rendering of a spec document: object keys sorted, array order and
    scalar text kept. Names and scalar text are UTF-16 code units. */
module Canonical {
  import opened Sorting

  type Text = seq<nat>

  datatype Member = Member(name: Text, value: Json)

  datatype Json =
    | Object(members: seq<Member>)
    | Array(items: seq<Json>)
    | Scalar(raw: Text)

  /** What the writer emits. */
  datatype Token = StartObject | EndObject | StartArray | EndArray | Name(name: Text) | Raw(raw: Text)

  // ----- Ordinal order of names

  predicate MemberLe(m: Member, n: Member) { LexLe(m.name, n.name) }

  lemma MemberLeIsPreorder()
    ensures TotalPreorder(MemberLe)
  {
    forall m, n ensures MemberLe(m, n) || MemberLe(n, m) {
      LexTotal(m.name, n.name);
    }
    forall l, m, n | MemberLe(l, m) && MemberLe(m, n) ensures MemberLe(l, n) {
      LexTransitive(l.name, m.name, n.name);
    }
  }

  function SortMembers(ms: seq<Member>): seq<Member> { Sort(MemberLe, ms) }

  // ----- The canonical form and its text

  /** Key order normalised at every depth. */
  function Normal(e: Json): Json {
    match e
    case Object(ms) => Object(SortMembers(NormalMembers(ms)))
    case Array(xs) => Array(NormalAll(xs))
    case Scalar(raw) => e
  }

  function NormalMembers(ms: seq<Member>): seq<Member> {
    seq(|ms|, i requires 0 <= i < |ms| => Member(ms[i].name, Normal(ms[i].value)))
  }

  function NormalAll(xs: seq<Json>): seq<Json> {
    seq(|xs|, i requires 0 <= i < |xs| => Normal(xs[i]))
  }

  function Print(e: Json): seq<Token>
    decreases e, 1
  {
    match e
    case Object(ms) => [StartObject] + PrintMembers(ms) + [EndObject]
    case Array(xs) => [StartArray] + PrintItems(xs) + [EndArray]
    case Scalar(raw) => [Raw(raw)]
  }

  function PrintMembers(ms: seq<Member>): seq<Token> {
    if ms == [] then [] else [Name(ms[0].name)] + Print(ms[0].value) + PrintMembers(ms[1..])
  }

  function PrintItems(xs: seq<Json>): seq<Token> {
    if xs == [] then [] else Print(xs[0]) + PrintItems(xs[1..])
  }

  /** Canonicalise: the token stream that is stored and hashed. */
  function Canonicalise(e: Json): seq<Token> { Print(Normal(e)) }

  // ----- Equality up to key order

  function Size(e: Json): nat {
    match e
    case Object(ms) => 1 + SizeMembers(ms)
    case Array(xs) => 1 + SizeItems(xs)
    case Scalar(_) => 0
  }

  function SizeMembers(ms: seq<Member>): nat {
    if ms == [] then 0 else Size(ms[0].value) + SizeMembers(ms[1..])
  }

  function SizeItems(xs: seq<Json>): nat {
    if xs == [] then 0 else Size(xs[0]) + SizeItems(xs[1..])
  }

  lemma {:induction false} ItemFits(xs: seq<Json>, i: nat)
    requires i < |xs|
    ensures Size(xs[i]) <= SizeItems(xs)
  {
    if i > 0 { ItemFits(xs[1..], i - 1); }
  }

  /** The values given for one name, in document order. */
  function ValuesOf(ms: seq<Member>, name: Text): (r: seq<Json>)
    ensures forall i | 0 <= i < |r| :: Size(r[i]) <= SizeMembers(ms)
  {
    if ms == [] then []
    else if ms[0].name == name then [ms[0].value] + ValuesOf(ms[1..], name)
    else ValuesOf(ms[1..], name)
  }

  /** The documents differ at most in the order of differently named members, at any
      depth: every name has the same values, arrays agree item by item, scalars are
      the same text. Names may repeat, as a parsed document allows. */
  ghost predicate Same(a: Json, b: Json)
    decreases Size(a), 0
  {
    match (a, b)
    case (Object(ms), Object(ns)) => SameMembers(ms, ns)
    case (Array(xs), Array(ys)) =>
      |xs| == |ys| && forall i | 0 <= i < |xs| :: (ItemFits(xs, i); Same(xs[i], ys[i]))
    case (Scalar(r), Scalar(s)) => r == s
    case _ => false
  }

  ghost predicate SameMembers(ms: seq<Member>, ns: seq<Member>)
    decreases SizeMembers(ms), 2
  {
    forall name :: SameValues(ms, ValuesOf(ms, name), ValuesOf(ns, name))
  }

  ghost predicate SameValues(of: seq<Member>, vs: seq<Json>, us: seq<Json>)
    requires forall i | 0 <= i < |vs| :: Size(vs[i]) <= SizeMembers(of)
    decreases SizeMembers(of), 1
  {
    |vs| == |us| && forall i | 0 <= i < |vs| :: Same(vs[i], us[i])
  }
}
