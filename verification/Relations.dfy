/** Batched writes and deletes of relation tuples. */
module Relations {
  import opened Common
  import ModelSummary
  import Resolver

  datatype Triple = Triple(user: string, relation: string, obj: string)

  datatype Source = Api | Spec(generation: nat) | Drift

  datatype Tuple = Tuple(id: string, triple: Triple, source: Source, writtenAt: int)

  datatype Request = Request(writes: seq<Triple>, deletes: seq<Triple>)

  datatype Outcome = Done(written: nat, deleted: nat) | Reserved(t: Triple) | NotInModel(t: Triple)

  /** total is what the index reports; only some of its rows are materialised as items. */
  datatype State = State(items: seq<Tuple>, total: int, nextSeq: nat)

  // ----- Row ids: "t-" and the sequence number padded to four digits

  function Decimal(n: nat): string {
    (if n < 10 then [] else Decimal(n / 10)) + ['0' + (n % 10) as char]
  }

  function PadStart(s: string): string
    decreases 4 - |s|
  {
    if |s| < 4 then PadStart("0" + s) else s
  }

  function IdOf(n: nat): string { "t-" + PadStart(Decimal(n)) }

  /** The number a digit string spells. */
  function Spelled(s: string): int {
    if s == [] then 0 else 10 * Spelled(s[..|s| - 1]) + (s[|s| - 1] as int - '0' as int)
  }

  lemma {:induction false} DecimalSpells(n: nat)
    ensures Spelled(Decimal(n)) == n
  {
    var rest := if n < 10 then [] else Decimal(n / 10);
    assert Decimal(n)[..|Decimal(n)| - 1] == rest;
    if n >= 10 { DecimalSpells(n / 10); }
  }

  lemma {:induction false} LeadingZero(s: string)
    ensures Spelled("0" + s) == Spelled(s)
  {
    if s == [] {
      assert ("0" + s)[..0] == [];
    } else {
      assert ("0" + s)[..|s|] == "0" + s[..|s| - 1];
      LeadingZero(s[..|s| - 1]);
    }
  }

  lemma {:induction false} PadSpells(s: string)
    ensures Spelled(PadStart(s)) == Spelled(s)
    decreases 4 - |s|
  {
    if |s| < 4 {
      LeadingZero(s);
      PadSpells("0" + s);
    }
  }

  /** Different sequence numbers make different ids. */
  lemma IdsDiffer(m: nat, n: nat)
    requires IdOf(m) == IdOf(n)
    ensures m == n
  {
    assert IdOf(m)[2..] == PadStart(Decimal(m)) && IdOf(n)[2..] == PadStart(Decimal(n));
    PadSpells(Decimal(m));
    PadSpells(Decimal(n));
    DecimalSpells(m);
    DecimalSpells(n);
  }

  /** Ids are "t-" and at least four digits, no more than needed. */
  lemma {:induction false} IdsArePadded(n: nat)
    ensures "t-" <= IdOf(n) && |IdOf(n)| >= 6 && (|IdOf(n)| == 6 <==> n < 10000)
    ensures forall i | 2 <= i < |IdOf(n)| :: '0' <= IdOf(n)[i] <= '9'
    ensures Spelled(IdOf(n)[2..]) == n
  {
    hide Decimal, PadStart, Spelled;
    var padded := PadStart(Decimal(n));
    assert IdOf(n) == "t-" + padded && IdOf(n)[2..] == padded;
    PadSpells(Decimal(n));
    DecimalSpells(n);
    DecimalDigits(n);
    PaddedDigits(Decimal(n));
    DecimalLength(n);
    assert forall i | 0 <= i < |padded| :: padded[i] in padded;
  }

  lemma {:induction false} DecimalDigits(n: nat)
    ensures Decimal(n) != [] && forall c <- Decimal(n) :: '0' <= c <= '9'
  {
    if n >= 10 { DecimalDigits(n / 10); }
  }

  lemma {:induction false} PaddedDigits(s: string)
    requires forall c <- s :: '0' <= c <= '9'
    ensures |PadStart(s)| == Max(4, |s|) && forall c <- PadStart(s) :: '0' <= c <= '9'
    decreases 4 - |s|
  {
    if |s| < 4 { PaddedDigits("0" + s); }
  }

  lemma DecimalLength(n: nat)
    ensures |Decimal(n)| <= 4 <==> n < 10000
  {
    var a, b, c := n / 10, n / 10 / 10, n / 10 / 10 / 10;
    DecimalDigits(c / 10);
    assert n >= 10 ==> |Decimal(n)| == |Decimal(a)| + 1;
    assert a >= 10 ==> |Decimal(a)| == |Decimal(b)| + 1;
    assert b >= 10 ==> |Decimal(b)| == |Decimal(c)| + 1;
  }

  // ----- Validation

  predicate IsReserved(t: Triple) { "platform:" <= t.obj || "platform:" <= t.user }

  function FirstType(model: ModelSummary.Model, name: string): Option<ModelSummary.TypeDef> {
    if model == [] then None else if model[0].name == name then Some(model[0]) else FirstType(model[1..], name)
  }

  predicate Defined(model: ModelSummary.Model, t: Triple) {
    match FirstType(model, Resolver.TypeOf(t.obj))
    case None => false
    case Some(d) => exists r <- d.relations :: r.name == t.relation
  }

  /** Type i is the first of the tuple's type name, and lists the relation. */
  ghost predicate DefinedAt(model: ModelSummary.Model, t: Triple, i: nat) {
    && i < |model| && model[i].name == Resolver.TypeOf(t.obj)
    && (forall j | 0 <= j < i :: model[j].name != Resolver.TypeOf(t.obj))
    && exists r <- model[i].relations :: r.name == t.relation
  }

  lemma {:induction false} DefinedMeans(model: ModelSummary.Model, t: Triple)
    ensures Defined(model, t) <==> exists i: nat :: DefinedAt(model, t, i)
  {
    if model != [] && model[0].name == Resolver.TypeOf(t.obj) {
      assert Defined(model, t) <==> DefinedAt(model, t, 0);
    } else if model != [] {
      DefinedMeans(model[1..], t);
      FirstTypeTail(model, Resolver.TypeOf(t.obj));
      if i: nat :| DefinedAt(model, t, i) { DefinedAtTail(model, t, i - 1); }
      if i: nat :| DefinedAt(model[1..], t, i) { DefinedAtTail(model, t, i); }
    }
  }

  lemma DefinedAtTail(model: ModelSummary.Model, t: Triple, i: nat)
    requires model != [] && model[0].name != Resolver.TypeOf(t.obj)
    ensures DefinedAt(model[1..], t, i) <==> DefinedAt(model, t, i + 1)
  {
    var rest := model[1..];
    if i < |rest| {
      assert rest[i] == model[i + 1];
      if forall j | 0 <= j < i + 1 :: model[j].name != Resolver.TypeOf(t.obj) {
        assert forall j | 0 <= j < i :: rest[j] == model[j + 1];
      }
      if forall j | 0 <= j < i :: rest[j].name != Resolver.TypeOf(t.obj) {
        assert forall j | 0 < j < i + 1 :: model[j] == rest[j - 1];
      }
    }
  }

  lemma FirstTypeTail(model: ModelSummary.Model, name: string)
    requires model != [] && model[0].name != name
    ensures FirstType(model, name) == FirstType(model[1..], name)
  {
  }

  lemma ReservedMeans(t: Triple)
    ensures IsReserved(t) <==> exists rest :: t.obj == "platform:" + rest || t.user == "platform:" + rest
  {
    if "platform:" <= t.obj { assert t.obj == "platform:" + t.obj[9..]; }
    if "platform:" <= t.user { assert t.user == "platform:" + t.user[9..]; }
  }

  predicate Acceptable(model: ModelSummary.Model, req: Request) {
    && (forall t | t in req.writes + req.deletes :: !IsReserved(t))
    && (forall t | t in req.writes :: Defined(model, t))
  }

  /** t is the first of the list that p holds of. */
  ghost predicate IsFirst(ts: seq<Triple>, t: Triple, p: Triple -> bool) {
    exists k | 0 <= k < |ts| :: ts[k] == t && p(t) && forall j | 0 <= j < k :: !p(ts[j])
  }

  /** The first reserved tuple of the batch is reported; failing that, the first write the model does
      not define. */
  ghost predicate Refuses(model: ModelSummary.Model, req: Request, r: Outcome) {
    match r
    case Reserved(t) => IsFirst(req.writes + req.deletes, t, IsReserved)
    case NotInModel(t) =>
      && (forall u | u in req.writes + req.deletes :: !IsReserved(u))
      && IsFirst(req.writes, t, (w: Triple) => !Defined(model, w))
    case Done(_, _) => false
  }

  method Validate(model: ModelSummary.Model, req: Request) returns (bad: Option<Outcome>)
    ensures bad.None? <==> Acceptable(model, req)
    ensures bad.Some? ==> Refuses(model, req, bad.value)
  {
    var all := req.writes + req.deletes;
    for i := 0 to |all|
      invariant forall k | 0 <= k < i :: !IsReserved(all[k])
    {
      if IsReserved(all[i]) { return Some(Reserved(all[i])); }
    }
    for i := 0 to |req.writes|
      invariant forall k | 0 <= k < i :: Defined(model, req.writes[k])
    {
      if !Defined(model, req.writes[i]) { return Some(NotInModel(req.writes[i])); }
    }
    return None;
  }

  // ----- Applying a batch

  /** The stored triples, as a set. */
  function Triples(items: seq<Tuple>): set<Triple> { set x <- items :: x.triple }

  function Named(triples: seq<Triple>): set<Triple> { set t <- triples }

  function Kept(items: seq<Tuple>, deletes: seq<Triple>): seq<Tuple> {
    if items == [] then []
    else
      var last := items[|items| - 1];
      Kept(items[..|items| - 1], deletes) + if last.triple in deletes then [] else [last]
  }

  /** Rows appended for writes, newest last, skipping triples already there. */
  function Added(items: seq<Tuple>, n: nat, writes: seq<Triple>, now: int): (r: seq<Tuple>)
    ensures |r| >= |items|
  {
    if writes == [] then items
    else
      var before := Added(items, n, writes[..|writes| - 1], now);
      var w := writes[|writes| - 1];
      if w in Triples(before) then before else before + [Tuple(IdOf(n + (|before| - |items|)), w, Api, now)]
  }

  function AfterBatch(s: State, req: Request, now: int): State {
    var kept := Kept(s.items, req.deletes);
    var items := Added(kept, s.nextSeq, req.writes, now);
    State(items, s.total + |items| - |s.items|, s.nextSeq + (|items| - |kept|))
  }

  ghost predicate UniqueTriples(items: seq<Tuple>) {
    forall i, j | 0 <= i < j < |items| :: items[i].triple != items[j].triple
  }

  ghost predicate UniqueIds(items: seq<Tuple>) {
    forall i, j | 0 <= i < j < |items| :: items[i].id != items[j].id
  }

  /** No row has the id of a sequence number still to come. */
  ghost predicate IdsBelow(items: seq<Tuple>, n: nat) {
    forall x, k: nat | x in items && k >= n :: x.id != IdOf(k)
  }

  ghost predicate Inv(s: State) {
    UniqueTriples(s.items) && UniqueIds(s.items) && IdsBelow(s.items, s.nextSeq)
  }

  /** Seeds numbered 1..n with n + 1 to come: only the triples have to be looked at. */
  lemma NumberedSeed(items: seq<Tuple>, total: int)
    requires forall i | 0 <= i < |items| :: items[i].id == IdOf(i + 1)
    ensures Inv(State(items, total, |items| + 1)) <==> UniqueTriples(items)
  {
    hide IdOf, UniqueTriples;
    forall i, j | 0 <= i < j < |items| ensures items[i].id != items[j].id {
      if items[i].id == items[j].id { IdsDiffer(i + 1, j + 1); }
    }
    forall x, k: nat | x in items && k >= |items| + 1 ensures x.id != IdOf(k) {
      var i :| 0 <= i < |items| && items[i] == x;
      if x.id == IdOf(k) { IdsDiffer(i + 1, k); }
    }
  }

  /** Seeds with another prefix. */
  lemma PrefixedSeed(items: seq<Tuple>, total: int, nextSeq: nat)
    requires UniqueIds(items) && forall x <- items :: !("t-" <= x.id)
    ensures Inv(State(items, total, nextSeq)) <==> UniqueTriples(items)
  {
    forall x, k: nat | x in items && k >= nextSeq ensures x.id != IdOf(k) {
      assert "t-" <= IdOf(k);
    }
  }

  lemma {:induction false} KeptIsFilter(items: seq<Tuple>, deletes: seq<Triple>)
    ensures forall x :: x in Kept(items, deletes) <==> x in items && x.triple !in deletes
  {
    if items != [] {
      KeptIsFilter(items[..|items| - 1], deletes);
      assert items == items[..|items| - 1] + [items[|items| - 1]];
    }
  }

  lemma {:induction false} KeptIsUnique(items: seq<Tuple>, deletes: seq<Triple>)
    ensures UniqueTriples(items) ==> UniqueTriples(Kept(items, deletes))
    ensures UniqueIds(items) ==> UniqueIds(Kept(items, deletes))
  {
    if items != [] {
      var init := items[..|items| - 1];
      KeptIsUnique(init, deletes);
      var kept := Kept(init, deletes);
      forall i | 0 <= i < |kept| ensures kept[i] in init {
        KeptIsFilter(init, deletes);
        assert kept[i] in kept;
      }
    }
  }

  /** r is items followed by newly numbered rows for writes. */
  ghost predicate Extended(items: seq<Tuple>, n: nat, writes: seq<Triple>, now: int, r: seq<Tuple>) {
    && |items| <= |r| && (forall k | 0 <= k < |items| :: r[k] == items[k])
    && (forall k | |items| <= k < |r| :: NewRow(r[k], n + (k - |items|), writes, now))
  }

  ghost predicate NewRow(x: Tuple, n: nat, writes: seq<Triple>, now: int) {
    x.id == IdOf(n) && x.triple in writes && x.source == Api && x.writtenAt == now
  }

  lemma {:induction false} AddedExtends(items: seq<Tuple>, n: nat, writes: seq<Triple>, now: int)
    ensures Extended(items, n, writes, now, Added(items, n, writes, now))
  {
    hide IdOf, Triples;
    if writes != [] {
      var init := writes[..|writes| - 1];
      AddedExtends(items, n, init, now);
      var before := Added(items, n, init, now);
      forall k | |items| <= k < |before| ensures NewRow(before[k], n + (k - |items|), writes, now) {
        assert NewRow(before[k], n + (k - |items|), init, now);
      }
    }
  }

  lemma {:induction false} AddedTriples(items: seq<Tuple>, n: nat, writes: seq<Triple>, now: int)
    ensures Triples(Added(items, n, writes, now)) == Triples(items) + Named(writes)
    ensures UniqueTriples(items) ==> UniqueTriples(Added(items, n, writes, now))
  {
    hide IdOf, Triples, UniqueTriples;
    if writes == [] {
      assert Named(writes) == {};
    } else {
      var init, w := writes[..|writes| - 1], writes[|writes| - 1];
      AddedTriples(items, n, init, now);
      assert writes == init + [w];
      assert Named(writes) == Named(init) + {w};
      var before, r := Added(items, n, init, now), Added(items, n, writes, now);
      if w !in Triples(before) {
        assert r == before + [r[|before|]];
        TriplesAppend(before, r[|before|]);
        if UniqueTriples(items) { UniqueAppend(before, r[|before|]); }
      }
    }
  }

  /** r lists, in order, the elements of xs at the ascending positions ps. */
  ghost predicate Picks<T(!new)>(r: seq<T>, xs: seq<T>, ps: seq<nat>) {
    && |ps| == |r| && (forall i, j | 0 <= i < j < |ps| :: ps[i] < ps[j])
    && forall i | 0 <= i < |r| :: ps[i] < |xs| && r[i] == xs[ps[i]]
  }

  /** Going on to the next element, picked or not. */
  lemma PicksNext<T(!new)>(r: seq<T>, xs: seq<T>, ps: seq<nat>)
    requires xs != [] && Picks(r, xs[..|xs| - 1], ps)
    ensures Picks(r, xs, ps) && Picks(r + [xs[|xs| - 1]], xs, ps + [|xs| - 1])
  {
  }

  /** The rows kept stay in their order. */
  lemma {:induction false} KeptInOrder(items: seq<Tuple>, deletes: seq<Triple>) returns (ps: seq<nat>)
    ensures Picks(Kept(items, deletes), items, ps)
  {
    if items == [] {
      ps := [];
    } else {
      hide Picks;
      var init, last := items[..|items| - 1], items[|items| - 1];
      ps := KeptInOrder(init, deletes);
      PicksNext(Kept(init, deletes), items, ps);
      if last.triple !in deletes { ps := ps + [|init|]; }
      assert Kept(items, deletes) == Kept(init, deletes) + if last.triple in deletes then [] else [last];
    }
  }

  function TriplesOf(items: seq<Tuple>): seq<Triple> {
    seq(|items|, i requires 0 <= i < |items| => items[i].triple)
  }

  /** The new rows come last, in the order in which the batch names them. */
  lemma {:induction false} AddedInOrder(items: seq<Tuple>, n: nat, writes: seq<Triple>, now: int)
    returns (ps: seq<nat>)
    ensures var r := Added(items, n, writes, now);
      r[..|items|] == items && Picks(TriplesOf(r[|items|..]), writes, ps)
  {
    hide IdOf, Triples;
    if writes == [] {
      ps := [];
    } else {
      var init := writes[..|writes| - 1];
      ps := AddedInOrder(items, n, init, now);
      hide Picks;
      var before, r := Added(items, n, init, now), Added(items, n, writes, now);
      PicksNext(TriplesOf(before[|items|..]), writes, ps);
      if r != before {
        ps := ps + [|init|];
        assert TriplesOf(r[|items|..]) == TriplesOf(before[|items|..]) + [writes[|init|]];
      }
    }
  }

  lemma UniqueAppend(items: seq<Tuple>, x: Tuple)
    requires UniqueTriples(items) && x.triple !in Triples(items)
    ensures UniqueTriples(items + [x])
  {
  }

  lemma TriplesAppend(items: seq<Tuple>, x: Tuple)
    ensures Triples(items + [x]) == Triples(items) + {x.triple}
  {
    assert forall y :: y in items + [x] <==> y in items || y == x;
  }

  lemma AddedIds(items: seq<Tuple>, n: nat, writes: seq<Triple>, now: int)
    requires UniqueIds(items) && IdsBelow(items, n)
    ensures var r := Added(items, n, writes, now);
      |items| <= |r| && UniqueIds(r) && IdsBelow(r, n + (|r| - |items|))
  {
    var r := Added(items, n, writes, now);
    AddedExtends(items, n, writes, now);
    hide Added, IdOf;
    forall i, j | 0 <= i < j < |r| ensures r[i].id != r[j].id {
      if |items| <= j { assert NewRow(r[j], n + (j - |items|), writes, now); }
      if |items| <= i { assert NewRow(r[i], n + (i - |items|), writes, now); }
      if |items| <= i && r[i].id == r[j].id { IdsDiffer(n + (i - |items|), n + (j - |items|)); }
    }
    forall x, k: nat | x in r && k >= n + (|r| - |items|) ensures x.id != IdOf(k) {
      var i :| 0 <= i < |r| && r[i] == x;
      if i < |items| {
        assert items[i] in items;
      } else if x.id == IdOf(k) {
        IdsDiffer(n + (i - |items|), k);
      }
    }
  }

  /** With unique triples, rows and triples are equally many. */
  lemma {:induction false} RowsAreTriples(items: seq<Tuple>)
    requires UniqueTriples(items)
    ensures |Triples(items)| == |items|
  {
    if items != [] {
      var init, last := items[..|items| - 1], items[|items| - 1];
      assert items == init + [last];
      RowsAreTriples(init);
      TriplesAppend(init, last);
      assert last.triple !in Triples(init);
    }
  }

  /** A batch replaces the triple set by (old minus deletes) plus writes. */
  lemma BatchTriples(s: State, req: Request, now: int)
    ensures Triples(AfterBatch(s, req, now).items) == (Triples(s.items) - Named(req.deletes)) + Named(req.writes)
  {
    hide Added, Kept, Triples, UniqueTriples;
    KeptTriples(s.items, req.deletes);
    AddedTriples(Kept(s.items, req.deletes), s.nextSeq, req.writes, now);
  }

  lemma BatchKeepsInv(s: State, req: Request, now: int)
    requires Inv(s)
    ensures Inv(AfterBatch(s, req, now))
  {
    var kept := Kept(s.items, req.deletes);
    KeptIsFilter(s.items, req.deletes);
    KeptIsUnique(s.items, req.deletes);
    AddedTriples(kept, s.nextSeq, req.writes, now);
    hide Added, Kept, UniqueTriples, UniqueIds, Triples;
    AddedIds(kept, s.nextSeq, req.writes, now);
  }

  /** What the two counters report, as set sizes. */
  function Written(s: State, req: Request): set<Triple> {
    Named(req.writes) - (Triples(s.items) - Named(req.deletes))
  }

  function Deleted(s: State, req: Request): set<Triple> { Triples(s.items) * Named(req.deletes) }

  lemma BatchCounts(s: State, req: Request, now: int)
    requires Inv(s)
    ensures |Kept(s.items, req.deletes)| == |s.items| - |Deleted(s, req)|
    ensures |AfterBatch(s, req, now).items| == |s.items| - |Deleted(s, req)| + |Written(s, req)|
    ensures AfterBatch(s, req, now).total == s.total - |Deleted(s, req)| + |Written(s, req)|
  {
    hide Kept, Added, UniqueTriples, UniqueIds, IdsBelow;
    var kept, after := Kept(s.items, req.deletes), AfterBatch(s, req, now).items;
    KeptIsUnique(s.items, req.deletes);
    BatchKeepsInv(s, req, now);
    RowsAreTriples(s.items);
    RowsAreTriples(kept);
    RowsAreTriples(after);
    KeptTriples(s.items, req.deletes);
    BatchTriples(s, req, now);
    hide Triples, Named;
    SizeSplit(Triples(s.items), Named(req.deletes), Named(req.writes));
  }

  lemma KeptTriples(items: seq<Tuple>, deletes: seq<Triple>)
    ensures Triples(Kept(items, deletes)) == Triples(items) - Named(deletes)
  {
    KeptIsFilter(items, deletes);
    hide Kept;
  }

  lemma SizeSplit(had: set<Triple>, gone: set<Triple>, come: set<Triple>)
    ensures |had - gone| == |had| - |had * gone|
    ensures |(had - gone) + come| == |had - gone| + |come - (had - gone)|
  {
    assert had == (had - gone) + (had * gone);
    assert (had - gone) + come == (had - gone) + (come - (had - gone));
  }

  // ----- Every sequence of batches

  datatype Batch = Batch(req: Request, now: int)

  function Write(model: ModelSummary.Model, s: State, b: Batch): State {
    if Acceptable(model, b.req) then AfterBatch(s, b.req, b.now) else s
  }

  function Writer(model: ModelSummary.Model): (State, Batch) -> State { (s, b) => Write(model, s, b) }

  function WriteAll(model: ModelSummary.Model, s: State, batches: seq<Batch>): State { Fold(Writer(model), s, batches) }

  ghost predicate ReservedIn(items: seq<Tuple>, x: Triple) { x in Triples(items) && IsReserved(x) }

  /** Rows off the record stay off it, reserved triples neither come nor go, and every triple
      that came is defined in the model. */
  ghost predicate Kindred(model: ModelSummary.Model, s: State, t: State) {
    && t.total - |t.items| == s.total - |s.items|
    && (forall x :: ReservedIn(t.items, x) <==> ReservedIn(s.items, x))
    && (forall x | x in Triples(t.items) && x !in Triples(s.items) :: Defined(model, x))
  }

  lemma WriteKeeps(model: ModelSummary.Model, s: State, b: Batch)
    requires Inv(s)
    ensures Inv(Write(model, s, b)) && Kindred(model, s, Write(model, s, b))
  {
    if Acceptable(model, b.req) {
      BatchKeepsInv(s, b.req, b.now);
      BatchTriples(s, b.req, b.now);
      hide Inv, Defined, IsReserved, Added, Kept;
    }
  }

  lemma KindredRefl(model: ModelSummary.Model, s: State)
    ensures Kindred(model, s, s)
  {
  }

  lemma KindredTrans(model: ModelSummary.Model, s: State, t: State, u: State)
    requires Kindred(model, s, t) && Kindred(model, t, u)
    ensures Kindred(model, s, u)
  {
    hide Defined, IsReserved, Triples;
  }

  lemma {:induction false} EveryBatchKeeps(model: ModelSummary.Model, s: State, batches: seq<Batch>)
    requires Inv(s)
    ensures var t := WriteAll(model, s, batches); Inv(t) && Kindred(model, s, t)
    decreases |batches|
  {
    hide Inv, Kindred, Write;
    if batches == [] {
      KindredRefl(model, s);
    } else {
      var init := batches[..|batches| - 1];
      EveryBatchKeeps(model, s, init);
      WriteKeeps(model, WriteAll(model, s, init), batches[|batches| - 1]);
      KindredTrans(model, s, WriteAll(model, s, init), WriteAll(model, s, batches));
    }
  }

  /** Sending a batch again leaves the triples and the total as the first sending left them. */
  lemma RepeatedBatch(model: ModelSummary.Model, s: State, req: Request, now: int, later: int)
    requires Inv(s)
    ensures var once := Write(model, s, Batch(req, now));
      var twice := Write(model, once, Batch(req, later));
      Triples(twice.items) == Triples(once.items) && twice.total == once.total
  {
    hide Inv, Triples, UniqueTriples, Acceptable;
    var once := Write(model, s, Batch(req, now));
    var twice := Write(model, once, Batch(req, later));
    WriteKeeps(model, s, Batch(req, now));
    WriteKeeps(model, once, Batch(req, later));
    BatchTriples(s, req, now);
    BatchTriples(once, req, later);
    UniqueRows(once);
    UniqueRows(twice);
    hide AfterBatch, Kindred;
    TotalFollowsRows(model, once, Batch(req, later));
  }

  lemma UniqueRows(s: State)
    requires Inv(s)
    ensures |Triples(s.items)| == |s.items|
  {
    RowsAreTriples(s.items);
  }

  lemma TotalFollowsRows(model: ModelSummary.Model, s: State, b: Batch)
    ensures var t := Write(model, s, b); t.total - |t.items| == s.total - |s.items|
  {
  }

  class RelationStore {
    var items: seq<Tuple>
    var total: int
    var nextSeq: nat
    const model: ModelSummary.Model

    function Value(): State
      reads this
    {
      State(items, total, nextSeq)
    }

    constructor (items: seq<Tuple>, total: int, nextSeq: nat, model: ModelSummary.Model)
      requires Inv(State(items, total, nextSeq))
      ensures Value() == State(items, total, nextSeq) && Inv(Value()) && this.model == model
    {
      this.items, this.total, this.nextSeq, this.model := items, total, nextSeq, model;
    }

    method DeleteRows(deletes: seq<Triple>) returns (deleted: nat)
      modifies this`items
      ensures items == Kept(old(items), deletes) && deleted == |old(items)| - |items|
    {
      deleted := 0;
      var kept := [];
      for i := 0 to |items|
        invariant items == old(items) && kept == Kept(items[..i], deletes) && deleted == i - |kept|
      {
        assert items[..i + 1][..i] == items[..i];
        if items[i].triple in deletes {
          deleted := deleted + 1;
        } else {
          kept := kept + [items[i]];
        }
      }
      assert items[..|items|] == items;
      items := kept;
    }

    method AddRows(writes: seq<Triple>, now: int) returns (written: nat)
      modifies this`items, this`nextSeq
      ensures items == Added(old(items), old(nextSeq), writes, now)
      ensures written == |items| - |old(items)| && nextSeq == old(nextSeq) + written
    {
      written := 0;
      for i := 0 to |writes|
        invariant items == Added(old(items), old(nextSeq), writes[..i], now)
        invariant written == |items| - |old(items)| && nextSeq == old(nextSeq) + written
      {
        assert writes[..i + 1][..i] == writes[..i];
        if exists x <- items :: x.triple == writes[i] {
          continue;
        }
        items := items + [Tuple(IdOf(nextSeq), writes[i], Api, now)];
        nextSeq := nextSeq + 1;
        written := written + 1;
      }
      assert writes[..|writes|] == writes;
    }

    method Apply(req: Request, now: int) returns (written: nat, deleted: nat)
      modifies this
      ensures Value() == AfterBatch(old(Value()), req, now)
      ensures deleted == |old(items)| - |Kept(old(items), req.deletes)| && written == |items| - |old(items)| + deleted
    {
      hide Kept, Added;
      deleted := DeleteRows(req.deletes);
      written := AddRows(req.writes, now);
      total := total + written - deleted;
    }

    /** All or nothing. */
    method WriteRelations(req: Request, now: int) returns (r: Outcome)
      requires Inv(Value())
      modifies this
      ensures Inv(Value()) && Value() == Write(model, old(Value()), Batch(req, now))
      ensures r.Done? <==> Acceptable(model, req)
      ensures !r.Done? ==> Refuses(model, req, r)
      ensures r.Done? ==> r.written == |Written(old(Value()), req)| && r.deleted == |Deleted(old(Value()), req)|
    {
      hide Inv, Kept, Added, Acceptable, Written, Deleted, AfterBatch, Refuses;
      var bad := Validate(model, req);
      if bad.Some? {
        return bad.value;
      }
      BatchCounts(Value(), req, now);
      BatchKeepsInv(Value(), req, now);
      var written, deleted := Apply(req, now);
      return Done(written, deleted);
    }
  }
}
