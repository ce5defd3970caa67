/** The canonical writer, the spec hash and the no-op test built on it. */
module SpecHash {
  import opened Common
  import opened Sorting
  import opened Canonical
  import opened CanonicalReader
  import opened CanonicalTheorems

  // ----- Sorting commutes with normalising the values

  lemma NormalKeepsNames(ms: seq<Member>)
    requires Sorted(MemberLe, ms)
    ensures Sorted(MemberLe, NormalMembers(ms))
  {
    var ns := NormalMembers(ms);
    forall i, j | 0 <= i < j < |ns| ensures MemberLe(ns[i], ns[j]) {
      assert MemberLe(ms[i], ms[j]);
    }
  }

  lemma NormalOfSorted(ms: seq<Member>)
    ensures SortMembers(NormalMembers(ms)) == NormalMembers(SortMembers(ms))
  {
    SortKeepsLists(ms);
    SortKeepsLists(NormalMembers(ms));
    NormalKeepsNames(SortMembers(ms));
    forall name
      ensures ValuesOf(SortMembers(NormalMembers(ms)), name) == ValuesOf(NormalMembers(SortMembers(ms)), name)
    {
      NormalValues(ms, name);
      NormalValues(SortMembers(ms), name);
    }
    SortedIsDetermined(SortMembers(NormalMembers(ms)), NormalMembers(SortMembers(ms)));
  }

  lemma {:induction false} NormalIsIdempotent(e: Json)
    ensures Normal(Normal(e)) == Normal(e)
  {
    match e
    case Object(ms) =>
      var ns := NormalMembers(ms);
      forall i | 0 <= i < |ms| ensures NormalMembers(ns)[i] == ns[i] {
        NormalIsIdempotent(ms[i].value);
      }
      assert NormalMembers(ns) == ns;
      NormalOfSorted(ns);
      SortKeepsLists(ns);
      SortKeepsLists(SortMembers(ns));
      SortedIsDetermined(SortMembers(SortMembers(ns)), SortMembers(ns));
    case Array(xs) =>
      forall i | 0 <= i < |xs| ensures Normal(Normal(xs[i])) == Normal(xs[i]) {
        NormalIsIdempotent(xs[i]);
      }
      assert Normal(Normal(e)).items == Normal(e).items;
    case Scalar(_) =>
  }

  /** Canonicalising the stored canonical document changes nothing. */
  lemma CanonicaliseIsIdempotent(e: Json)
    ensures Canonicalise(Normal(e)) == Canonicalise(e) && Same(Normal(e), e)
  {
    NormalIsIdempotent(e);
    NormalDecidesSame(Normal(e), e);
  }

  /** The stored text reads as a document that differs from the given one in key order alone, and of those
      it is the one whose names are in order: its text and its hash are the stored ones. */
  lemma StoredTextIsRead(sha: seq<Token> -> Digest, e: Json)
    ensures Read(Canonicalise(e)) == Some(Normal(e)) && Same(Normal(e), e) && InNameOrder(Normal(e))
    ensures OfText(sha, Canonicalise(e)) == Some(Of(sha, e))
  {
    hide Read, Print, Normal, Same, InNameOrder;
    ReadInvertsPrint(Canonicalise(e), Normal(e));
    CanonicaliseIsIdempotent(e);
    NormalIsInOrder(e);
  }

  /** Every object of the document lists its names in ordinal order. */
  ghost predicate InNameOrder(e: Json) {
    match e
    case Object(ms) =>
      && (forall i, j | 0 <= i < j < |ms| :: LexLe(ms[i].name, ms[j].name))
      && (forall i | 0 <= i < |ms| :: InNameOrder(ms[i].value))
    case Array(xs) => forall i | 0 <= i < |xs| :: InNameOrder(xs[i])
    case Scalar(_) => true
  }

  /** In the canonical form names are in ordinal order at every depth. */
  lemma {:induction false} NormalIsInOrder(e: Json)
    ensures InNameOrder(Normal(e))
  {
    match e
    case Object(ms) =>
      var ns := NormalMembers(ms);
      forall i | 0 <= i < |ns| ensures InNameOrder(ns[i].value) { NormalIsInOrder(ms[i].value); }
      SortKeepsLists(ns);
      var sorted := SortMembers(ns);
      forall i, j | 0 <= i < j < |sorted| ensures LexLe(sorted[i].name, sorted[j].name) {
        assert MemberLe(sorted[i], sorted[j]);
      }
      forall i | 0 <= i < |sorted| ensures InNameOrder(sorted[i].value) {
        MemberLeIsPreorder();
        assert sorted[i] in sorted;
        SortMembership(MemberLe, ns, sorted[i]);
      }
    case Array(xs) =>
      forall i | 0 <= i < |xs| ensures InNameOrder(Normal(xs[i])) { NormalIsInOrder(xs[i]); }
    case Scalar(_) =>
  }

  // ----- The writer

  class Writer {
    var out: seq<Token>

    constructor ()
      ensures out == []
    {
      out := [];
    }

    method Emit(t: Token)
      modifies this
      ensures out == old(out) + [t]
    {
      out := out + [t];
    }
  }

  lemma SortedValueIsSmaller(e: Json, k: nat)
    requires e.Object?
    ensures |SortMembers(e.members)| == |e.members|
    ensures k < |e.members| ==> SortMembers(e.members)[k].value < e
  {
    MemberLeIsPreorder();
    SortFacts(MemberLe, e.members);
    assert |multiset(SortMembers(e.members))| == |multiset(e.members)|;
    if k < |e.members| {
      var m := SortMembers(e.members)[k];
      SortMembership(MemberLe, e.members, m);
      var i :| 0 <= i < |e.members| && e.members[i] == m;
      assert e.members[i].value < e;
    }
  }

  method Write(e: Json, writer: Writer)
    modifies writer
    ensures writer.out == old(writer.out) + Canonicalise(e)
    decreases e, 1
  {
    match e
    case Object(ms) =>
      writer.Emit(StartObject);
      WriteMembers(e, writer);
      writer.Emit(EndObject);
    case Array(xs) =>
      writer.Emit(StartArray);
      WriteItems(e, writer);
      writer.Emit(EndArray);
    case Scalar(raw) =>
      writer.Emit(Raw(raw));
  }

  method WriteMembers(e: Json, writer: Writer)
    requires e.Object?
    modifies writer
    ensures writer.out == old(writer.out) + PrintMembers(Normal(e).members)
    decreases e, 0
  {
    hide SortMembers, NormalMembers, Canonicalise, PrintMembers;
    var sorted := SortMembers(e.members);
    NormalOfSorted(e.members);
    assert sorted[0..] == sorted;
    for k := 0 to |sorted|
      invariant writer.out + PrintMembers(NormalMembers(sorted[k..])) ==
                old(writer.out) + PrintMembers(NormalMembers(sorted))
    {
      SortedValueIsSmaller(e, k);
      NextMember(sorted, k);
      writer.Emit(Name(sorted[k].name));
      Write(sorted[k].value, writer);
    }
    assert sorted[|sorted|..] == [];
    NothingToPrint();
  }

  method WriteItems(e: Json, writer: Writer)
    requires e.Array?
    modifies writer
    ensures writer.out == old(writer.out) + PrintItems(NormalAll(e.items))
    decreases e, 0
  {
    hide Canonicalise, NormalAll, PrintItems;
    var xs := e.items;
    assert xs[0..] == xs;
    for k := 0 to |xs|
      invariant writer.out + PrintItems(NormalAll(xs[k..])) == old(writer.out) + PrintItems(NormalAll(xs))
    {
      NextItem(xs, k);
      Write(xs[k], writer);
    }
    assert xs[|xs|..] == [];
    NothingToPrint();
  }

  lemma NothingToPrint()
    ensures PrintMembers(NormalMembers([])) == [] && PrintItems(NormalAll([])) == []
  {
  }

  lemma NextMember(ms: seq<Member>, k: nat)
    requires k < |ms|
    ensures PrintMembers(NormalMembers(ms[k..])) ==
            [Name(ms[k].name)] + Canonicalise(ms[k].value) + PrintMembers(NormalMembers(ms[k + 1..]))
  {
    assert NormalMembers(ms[k..])[1..] == NormalMembers(ms[k + 1..]);
  }

  lemma NextItem(xs: seq<Json>, k: nat)
    requires k < |xs|
    ensures PrintItems(NormalAll(xs[k..])) == Canonicalise(xs[k]) + PrintItems(NormalAll(xs[k + 1..]))
  {
    assert NormalAll(xs[k..])[1..] == NormalAll(xs[k + 1..]);
  }

  // ----- The hash

  type Digest = string

  /** SHA-256 of the canonical text, for whichever digest function is in use. */
  function Of(sha: seq<Token> -> Digest, spec: Json): Digest { sha(Canonicalise(spec)) }

  /** The hash of a spec given as text; None when it cannot be read. */
  function OfText(sha: seq<Token> -> Digest, ts: seq<Token>): Option<Digest> {
    match Read(ts) case None => None case Some(e) => Some(Of(sha, e))
  }

  /** A candidate would produce no change. */
  predicate Matches(sha: seq<Token> -> Digest, stored: Digest, candidate: Json) { stored == Of(sha, candidate) }

  predicate Collides(sha: seq<Token> -> Digest, x: seq<Token>, y: seq<Token>) { x != y && sha(x) == sha(y) }

  /** Re-saving a document with its keys reordered is always a no-op; as long as the
      digest does not collide on the two texts, nothing else is. */
  lemma MatchesDecidesSame(sha: seq<Token> -> Digest, current: Json, candidate: Json)
    ensures Same(current, candidate) ==> Matches(sha, Of(sha, current), candidate)
    ensures !Collides(sha, Canonicalise(current), Canonicalise(candidate)) ==>
      (Matches(sha, Of(sha, current), candidate) <==> Same(current, candidate))
  {
    CanonicalDecidesSame(current, candidate);
  }

  // ----- What Same means when names are distinct

  ghost predicate DistinctNames(ms: seq<Member>) {
    forall i, j | 0 <= i < j < |ms| :: ms[i].name != ms[j].name
  }

  function ValueOf(ms: seq<Member>, name: Text): Option<Json> {
    if ms == [] then None else if ms[0].name == name then Some(ms[0].value) else ValueOf(ms[1..], name)
  }

  lemma {:induction false} NameIsElsewhere(ms: seq<Member>, name: Text)
    requires forall m <- ms :: m.name != name
    ensures ValuesOf(ms, name) == []
  {
    if ms != [] { NameIsElsewhere(ms[1..], name); }
  }

  lemma {:induction false} OneValue(ms: seq<Member>, name: Text)
    requires DistinctNames(ms)
    ensures ValuesOf(ms, name) == match ValueOf(ms, name) case None => [] case Some(v) => [v]
  {
    if ms != [] {
      var rest := ms[1..];
      forall i, j | 0 <= i < j < |rest| ensures rest[i].name != rest[j].name {
        assert ms[i + 1].name != ms[j + 1].name;
      }
      if ms[0].name == name {
        NameIsElsewhere(rest, name);
      } else {
        OneValue(rest, name);
      }
    }
  }

  ghost predicate SameOption(v: Option<Json>, u: Option<Json>) {
    match (v, u)
    case (None, None) => true
    case (Some(x), Some(y)) => Same(x, y)
    case _ => false
  }

  lemma SameValueAt(ms: seq<Member>, ns: seq<Member>, name: Text)
    requires DistinctNames(ms) && DistinctNames(ns)
    ensures SameValues(ms, ValuesOf(ms, name), ValuesOf(ns, name)) <==> SameOption(ValueOf(ms, name), ValueOf(ns, name))
  {
    OneValue(ms, name);
    OneValue(ns, name);
    hide ValueOf, ValuesOf, Same, DistinctNames;
    var vs, us := ValuesOf(ms, name), ValuesOf(ns, name);
    assert |vs| == 1 && |us| == 1 && Same(vs[0], us[0]) ==> SameValues(ms, vs, us);
  }

  ghost predicate SameByLookup(ms: seq<Member>, ns: seq<Member>) {
    forall name :: SameOption(ValueOf(ms, name), ValueOf(ns, name))
  }

  /** With distinct names two objects are the same iff the same names are present and
      each carries the same value. */
  lemma SameByName(ms: seq<Member>, ns: seq<Member>)
    requires DistinctNames(ms) && DistinctNames(ns)
    ensures Same(Object(ms), Object(ns)) <==> SameByLookup(ms, ns)
  {
    assert Same(Object(ms), Object(ns)) <==> SameMembers(ms, ns);
    if SameMembers(ms, ns) {
      forall name ensures SameOption(ValueOf(ms, name), ValueOf(ns, name)) {
        SameValueAt(ms, ns, name);
      }
    }
    if SameByLookup(ms, ns) {
      forall name ensures SameValues(ms, ValuesOf(ms, name), ValuesOf(ns, name)) {
        SameValueAt(ms, ns, name);
        assert SameOption(ValueOf(ms, name), ValueOf(ns, name));
      }
      assert SameMembers(ms, ns);
    }
  }
}
