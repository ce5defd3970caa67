/** A stable sort by a total preorder, as the source's OrderBy. */
module Sorting {

  ghost predicate TotalPreorder<T(!new)>(le: (T, T) -> bool) {
    && (forall x, y :: le(x, y) || le(y, x))
    && (forall x, y, z :: le(x, y) && le(y, z) ==> le(x, z))
  }

  /** Puts x before the first element it does not come after. */
  function Insert<T>(le: (T, T) -> bool, x: T, s: seq<T>): seq<T> {
    if s == [] || le(x, s[0]) then [x] + s else [s[0]] + Insert(le, x, s[1..])
  }

  function Sort<T>(le: (T, T) -> bool, s: seq<T>): seq<T> {
    if s == [] then [] else Insert(le, s[0], Sort(le, s[1..]))
  }

  ghost predicate Sorted<T>(le: (T, T) -> bool, s: seq<T>) {
    forall i, j | 0 <= i < j < |s| :: le(s[i], s[j])
  }

  lemma {:induction false} InsertIsPermutation<T>(le: (T, T) -> bool, x: T, s: seq<T>)
    ensures multiset(Insert(le, x, s)) == multiset{x} + multiset(s)
  {
    if s != [] && !le(x, s[0]) {
      InsertIsPermutation(le, x, s[1..]);
      assert s == [s[0]] + s[1..];
    }
  }

  lemma InsertMembers<T>(le: (T, T) -> bool, x: T, s: seq<T>, j: nat)
    requires j < |Insert(le, x, s)|
    ensures Insert(le, x, s)[j] == x || Insert(le, x, s)[j] in s
  {
    InsertIsPermutation(le, x, s);
    var r := Insert(le, x, s);
    assert r[j] in multiset(r);
  }

  lemma {:induction false} InsertKeepsSorted<T(!new)>(le: (T, T) -> bool, x: T, s: seq<T>)
    requires TotalPreorder(le) && Sorted(le, s)
    ensures Sorted(le, Insert(le, x, s))
  {
    if s == [] {
    } else if le(x, s[0]) {
      forall j | 0 <= j < |s| ensures le(x, s[j]) {
        if j > 0 { assert le(s[0], s[j]); }
      }
    } else {
      var rest := s[1..];
      InsertKeepsSorted(le, x, rest);
      var tail := Insert(le, x, rest);
      forall j | 0 <= j < |tail| ensures le(s[0], tail[j]) {
        InsertMembers(le, x, rest, j);
        AtLeastHead(le, s, tail[j]);
      }
      ConsSorted(le, s[0], tail);
    }
  }

  lemma AtLeastHead<T(!new)>(le: (T, T) -> bool, s: seq<T>, y: T)
    requires Sorted(le, s) && s != []
    ensures y in s[1..] ==> le(s[0], y)
  {
  }

  lemma ConsSorted<T>(le: (T, T) -> bool, x: T, s: seq<T>)
    requires Sorted(le, s) && forall j | 0 <= j < |s| :: le(x, s[j])
    ensures Sorted(le, [x] + s)
  {
  }

  lemma {:induction false} SortFacts<T(!new)>(le: (T, T) -> bool, s: seq<T>)
    requires TotalPreorder(le)
    ensures Sorted(le, Sort(le, s)) && multiset(Sort(le, s)) == multiset(s)
  {
    assert Sorted(le, []);
    hide TotalPreorder, Sorted, Insert;
    if s != [] {
      SortFacts(le, s[1..]);
      InsertKeepsSorted(le, s[0], Sort(le, s[1..]));
      InsertIsPermutation(le, s[0], Sort(le, s[1..]));
      assert s == [s[0]] + s[1..];
    }
  }

  lemma SortMembership<T(!new)>(le: (T, T) -> bool, s: seq<T>, x: T)
    requires TotalPreorder(le)
    ensures x in Sort(le, s) <==> x in s
  {
    SortFacts(le, s);
    assert x in multiset(s) <==> x in s;
    assert x in multiset(Sort(le, s)) <==> x in Sort(le, s);
  }

  // ----- Lexicographic order of sequences of numbers

  predicate LexLe(a: seq<nat>, b: seq<nat>) {
    a == [] || (b != [] && (a[0] < b[0] || (a[0] == b[0] && LexLe(a[1..], b[1..]))))
  }

  lemma {:induction false} LexTotal(a: seq<nat>, b: seq<nat>)
    ensures LexLe(a, b) || LexLe(b, a)
    ensures LexLe(a, b) && LexLe(b, a) ==> a == b
  {
    if a != [] && b != [] {
      LexTotal(a[1..], b[1..]);
      assert a == [a[0]] + a[1..] && b == [b[0]] + b[1..];
    }
  }

  lemma {:induction false} LexTransitive(a: seq<nat>, b: seq<nat>, c: seq<nat>)
    requires LexLe(a, b) && LexLe(b, c)
    ensures LexLe(a, c)
  {
    if a != [] && a[0] == b[0] == c[0] {
      LexTransitive(a[1..], b[1..], c[1..]);
    }
  }

  /** a is b or comes before it: at the first place they differ a is smaller, or a ends there. */
  lemma {:induction false} LexMeans(a: seq<nat>, b: seq<nat>)
    ensures LexLe(a, b) <==> a <= b || exists k: nat :: FirstDifference(a, b, k) && a[k] < b[k]
  {
    if a != [] && b != [] {
      LexMeans(a[1..], b[1..]);
      if a[0] == b[0] {
        if k: nat :| FirstDifference(a[1..], b[1..], k) && a[1..][k] < b[1..][k] {
          FirstDifferenceMoves(a, b, k);
        }
        if k: nat :| FirstDifference(a, b, k) && a[k] < b[k] {
          assert k > 0;
          FirstDifferenceMoves(a, b, k - 1);
        }
        assert a <= b <==> a[1..] <= b[1..];
      } else {
        assert FirstDifference(a, b, 0);
      }
    }
  }

  ghost predicate FirstDifference(a: seq<nat>, b: seq<nat>, k: nat) {
    k < |a| && k < |b| && a[k] != b[k] && a[..k] == b[..k]
  }

  lemma FirstDifferenceMoves(a: seq<nat>, b: seq<nat>, k: nat)
    requires a != [] && b != [] && a[0] == b[0]
    ensures FirstDifference(a[1..], b[1..], k) <==> FirstDifference(a, b, k + 1)
  {
    if k < |a| - 1 && k < |b| - 1 {
      assert a[..k + 1] == [a[0]] + a[1..][..k] && b[..k + 1] == [b[0]] + b[1..][..k];
    }
  }
}
