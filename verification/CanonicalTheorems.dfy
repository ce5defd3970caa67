/** The canonical text decides equality up to key order, for every pair of documents. */
module CanonicalTheorems {
  import opened Sorting
  import opened Canonical
  import opened CanonicalReader

  // ----- Stability: sorting keeps the values of every name in order

  lemma {:induction false} InsertKeepsValues(x: Member, s: seq<Member>, name: Text)
    ensures ValuesOf(Insert(MemberLe, x, s), name) ==
            (if x.name == name then [x.value] else []) + ValuesOf(s, name)
  {
    var r := Insert(MemberLe, x, s);
    if s == [] || MemberLe(x, s[0]) {
      assert r[1..] == s;
    } else {
      LexTotal(x.name, s[0].name);
      InsertKeepsValues(x, s[1..], name);
      assert r[1..] == Insert(MemberLe, x, s[1..]);
      assert x.name != s[0].name;
    }
  }

  lemma {:induction false} SortKeepsValues(ms: seq<Member>, name: Text)
    ensures ValuesOf(SortMembers(ms), name) == ValuesOf(ms, name)
  {
    if ms != [] {
      SortKeepsValues(ms[1..], name);
      InsertKeepsValues(ms[0], SortMembers(ms[1..]), name);
    }
  }

  lemma {:induction false} HasValue(ms: seq<Member>, name: Text) returns (i: nat)
    requires ValuesOf(ms, name) != []
    ensures i < |ms| && ms[i].name == name
  {
    if ms[0].name == name {
      i := 0;
    } else {
      i := HasValue(ms[1..], name);
      i := i + 1;
    }
  }

  lemma SmallestName(p: seq<Member>, q: seq<Member>)
    requires Sorted(MemberLe, q) && p != [] && ValuesOf(q, p[0].name) != []
    ensures q != [] && LexLe(q[0].name, p[0].name)
  {
    var i := HasValue(q, p[0].name);
    LexTotal(q[0].name, q[0].name);
    assert i > 0 ==> MemberLe(q[0], q[i]);
  }

  /** A sorted list of members is determined by the values of each name. */
  lemma {:induction false} SortedIsDetermined(p: seq<Member>, q: seq<Member>)
    requires Sorted(MemberLe, p) && Sorted(MemberLe, q)
    requires forall name :: ValuesOf(p, name) == ValuesOf(q, name)
    ensures p == q
  {
    assert q != [] ==> ValuesOf(q, q[0].name) != [];
    if p != [] {
      assert ValuesOf(p, p[0].name) == ValuesOf(q, p[0].name);
      SmallestName(p, q);
      assert ValuesOf(p, q[0].name) == ValuesOf(q, q[0].name);
      SmallestName(q, p);
      LexTotal(p[0].name, q[0].name);
      assert ValuesOf(p, p[0].name)[0] == p[0].value;
      forall name ensures ValuesOf(p[1..], name) == ValuesOf(q[1..], name) {
        var vs := ValuesOf(p, name);
        assert vs == ValuesOf(q, name);
        if name == p[0].name {
          assert ValuesOf(p[1..], name) == vs[1..] && ValuesOf(q[1..], name) == vs[1..];
        }
      }
      SortedIsDetermined(p[1..], q[1..]);
      assert p == [p[0]] + p[1..] && q == [q[0]] + q[1..];
    }
  }

  /** Every name has the same list of values. */
  ghost predicate SameLists(ms: seq<Member>, ns: seq<Member>) {
    forall name :: ValuesOf(ms, name) == ValuesOf(ns, name)
  }

  lemma SortKeepsLists(ms: seq<Member>)
    ensures SameLists(SortMembers(ms), ms) && Sorted(MemberLe, SortMembers(ms))
  {
    forall name ensures ValuesOf(SortMembers(ms), name) == ValuesOf(ms, name) {
      SortKeepsValues(ms, name);
    }
    MemberLeIsPreorder();
    SortFacts(MemberLe, ms);
  }

  lemma SameListsChain(a: seq<Member>, b: seq<Member>, c: seq<Member>)
    requires SameLists(a, b)
    ensures SameLists(b, a) && (SameLists(b, c) <==> SameLists(a, c)) && (SameLists(c, b) <==> SameLists(c, a))
  {
    hide ValuesOf;
  }

  lemma SortIsDetermined(ms: seq<Member>, ns: seq<Member>)
    ensures SortMembers(ms) == SortMembers(ns) <==> SameLists(ms, ns)
  {
    SortKeepsLists(ms);
    SortKeepsLists(ns);
    SameListsChain(SortMembers(ms), ms, ns);
    SameListsChain(SortMembers(ns), ns, SortMembers(ms));
    if SameLists(SortMembers(ms), SortMembers(ns)) {
      SortedIsDetermined(SortMembers(ms), SortMembers(ns));
    }
  }

  // ----- The canonical form decides Same

  lemma {:induction false} NormalValues(ms: seq<Member>, name: Text)
    ensures ValuesOf(NormalMembers(ms), name) == NormalAll(ValuesOf(ms, name))
  {
    if ms != [] {
      NormalValues(ms[1..], name);
      assert NormalMembers(ms)[1..] == NormalMembers(ms[1..]);
    }
  }

  lemma {:induction false} NormalDecidesSame(a: Json, b: Json)
    ensures Normal(a) == Normal(b) <==> Same(a, b)
    decreases Size(a), 2
  {
    match (a, b)
    case (Object(ms), Object(ns)) =>
      SortIsDetermined(NormalMembers(ms), NormalMembers(ns));
      MembersDecideSame(a, ms, ns);
    case (Array(xs), Array(ys)) =>
      forall i | 0 <= i < |xs| ensures Size(xs[i]) < Size(a) {
        ItemFits(xs, i);
      }
      ValuesDecideSame(a, xs, ys);
      assert Normal(a).items == NormalAll(xs) && Normal(b).items == NormalAll(ys);
    case _ =>
  }

  lemma {:induction false} MembersDecideSame(a: Json, ms: seq<Member>, ns: seq<Member>)
    requires SizeMembers(ms) < Size(a)
    ensures SameLists(NormalMembers(ms), NormalMembers(ns)) <==> SameMembers(ms, ns)
    decreases Size(a), 1
  {
    forall name ensures ValuesOf(NormalMembers(ms), name) == ValuesOf(NormalMembers(ns), name) <==>
                        SameValues(ms, ValuesOf(ms, name), ValuesOf(ns, name))
    {
      NormalValues(ms, name);
      NormalValues(ns, name);
      ValuesDecideSame(a, ValuesOf(ms, name), ValuesOf(ns, name));
    }
    hide SameValues, NormalMembers, ValuesOf;
    if SameMembers(ms, ns) {
      forall name ensures ValuesOf(NormalMembers(ms), name) == ValuesOf(NormalMembers(ns), name) {
        assert SameValues(ms, ValuesOf(ms, name), ValuesOf(ns, name));
      }
    }
  }

  lemma {:induction false} ValuesDecideSame(a: Json, vs: seq<Json>, us: seq<Json>)
    requires forall i | 0 <= i < |vs| :: Size(vs[i]) < Size(a)
    ensures NormalAll(vs) == NormalAll(us) <==> |vs| == |us| && forall i | 0 <= i < |vs| :: Same(vs[i], us[i])
    decreases Size(a), 0
  {
    hide Normal, Same;
    if |vs| == |us| {
      forall i | 0 <= i < |vs| ensures Normal(vs[i]) == Normal(us[i]) <==> Same(vs[i], us[i]) {
        NormalDecidesSame(vs[i], us[i]);
      }
      if NormalAll(vs) == NormalAll(us) {
        forall i | 0 <= i < |vs| ensures Same(vs[i], us[i]) {
          assert NormalAll(vs)[i] == NormalAll(us)[i];
        }
      }
    } else {
      assert |NormalAll(vs)| != |NormalAll(us)|;
    }
  }

  // ----- The text can be read back in one way only

  lemma PrintIsPrefixFree(a: Json, b: Json, x: seq<Token>, y: seq<Token>)
    requires Print(a) + x == Print(b) + y
    ensures a == b && x == y
  {
    hide Print, ReadValue;
    PrintIsRead(a, x);
    PrintIsRead(b, y);
  }

  /** Two documents have the same canonical text iff they differ only in key order. */
  lemma CanonicalDecidesSame(a: Json, b: Json)
    ensures Canonicalise(a) == Canonicalise(b) <==> Same(a, b)
  {
    hide Print, Same;
    NormalDecidesSame(a, b);
    if Canonicalise(a) == Canonicalise(b) {
      PrintIsPrefixFree(Normal(a), Normal(b), [], []);
    }
  }
}
