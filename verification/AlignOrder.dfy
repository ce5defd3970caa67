/** Which of the equally long alignments is taken, and what the pairing pass makes of it. */
module AlignOrder {
  import opened Common
  import opened LineDiff
  import opened ChangePairing
  import opened DiffViews

  /** Dropping a line costs at most one common line. */
  lemma {:induction false} LcsSteps(x: seq<string>, y: seq<string>)
    ensures x != [] ==> Lcs(x[1..], y) <= Lcs(x, y) <= Lcs(x[1..], y) + 1
    ensures y != [] ==> Lcs(x, y[1..]) <= Lcs(x, y) <= Lcs(x, y[1..]) + 1
    decreases |x| + |y|
  {
    if x != [] && y != [] {
      LcsSteps(x[1..], y);
      LcsSteps(x, y[1..]);
      LcsSteps(x[1..], y[1..]);
    }
  }

  /** In a block of changes the removed lines come first. */
  ghost predicate RemovedFirst(ops: seq<Op>) {
    forall k, l | 0 <= k && l == k + 1 && l < |ops| :: ops[k].Added? ==> !ops[l].Removed?
  }

  /** After an added line the remainder keeps more without the next right line than without the left one. */
  lemma AddedThen(a: seq<string>, b: seq<string>, i: nat, j: nat)
    requires i < |a| && j < |b| && a[i] != b[j] && Lcs(a[i + 1..], b[j..]) < Lcs(a[i..], b[j + 1..])
    ensures j + 1 < |b| && (a[i] != b[j + 1] ==> Lcs(a[i + 1..], b[j + 1..]) < Lcs(a[i..], b[j + 2..]))
  {
    var x, y := a[i..], b[j..];
    assert x[1..] == a[i + 1..] && y[1..] == b[j + 1..];
    LcsSteps(x[1..], y);
    if j + 1 < |b| { assert b[j + 1..][1..] == b[j + 2..]; }
  }

  lemma {:induction false} AlignFromRemovedFirst(a: seq<string>, b: seq<string>, i: nat, j: nat)
    requires i <= |a| && j <= |b|
    ensures RemovedFirst(AlignFrom(a, b, i, j))
    decreases |a| - i + |b| - j
  {
    var ops := AlignFrom(a, b, i, j);
    if ops != [] {
      var i', j' := if ops[0].Added? then i else i + 1, if ops[0].Removed? then j else j + 1;
      var rest := AlignFrom(a, b, i', j');
      assert ops == [ops[0]] + rest;
      AlignFromRemovedFirst(a, b, i', j');
      if ops[0].Added? && i < |a| { AddedThen(a, b, i, j); }
      ConsRemovedFirst(ops[0], rest);
    }
  }

  lemma ConsRemovedFirst(op: Op, rest: seq<Op>)
    requires RemovedFirst(rest) && (op.Added? && rest != [] ==> !rest[0].Removed?)
    ensures RemovedFirst([op] + rest)
  {
  }

  /** Among the alignments that keep as much, the one is taken that never adds right before it removes. */
  lemma AlignRemovesFirst(a: seq<string>, b: seq<string>)
    ensures RemovedFirst(Align(a, b))
  {
    if |a| * |b| > MAX_CELLS {
      RemoveFromFacts(Left, a, 0);
      AddFromFacts(Left, b, 0);
    } else {
      AlignFromRemovedFirst(a, b, 0, 0);
    }
  }

  // ----- Documents without a common line

  ghost predicate Disjoint(a: seq<string>, b: seq<string>) { forall l <- a :: l !in b }

  lemma {:induction false} NothingCommon(a: seq<string>, b: seq<string>)
    requires Disjoint(a, b)
    ensures Lcs(a, b) == 0
    decreases |a| + |b|
  {
    if a != [] && b != [] {
      assert a[0] in a && b[0] in b;
      NothingCommon(a[1..], b);
      NothingCommon(a, b[1..]);
    }
  }

  lemma SlicesAreDisjoint(a: seq<string>, b: seq<string>, i: nat, j: nat)
    requires i <= |a| && j <= |b| && Disjoint(a, b)
    ensures Disjoint(a[i..], b[j..])
  {
    forall l | l in a[i..] ensures l !in b[j..] {
      assert l in a;
      assert l in b[j..] ==> l in b;
    }
  }

  lemma RemovedNext(a: seq<string>, b: seq<string>, i: nat)
    requires i < |a| && b != [] && Disjoint(a, b)
    ensures a[i] != b[0] && Lcs(a[i + 1..], b[0..]) == Lcs(a[i..], b[1..]) == 0
  {
    hide Lcs;
    assert a[i] in a && b[0] in b;
    SlicesAreDisjoint(a, b, i + 1, 0);
    SlicesAreDisjoint(a, b, i, 1);
    NothingCommon(a[i + 1..], b[0..]);
    NothingCommon(a[i..], b[1..]);
  }

  lemma {:induction false} AlignFromDisjoint(a: seq<string>, b: seq<string>, i: nat)
    requires i <= |a| && Disjoint(a, b)
    ensures AlignFrom(a, b, i, 0) == RemoveFrom(a, i) + AddFrom(b, 0)
    decreases |a| - i
  {
    hide Lcs;
    if i < |a| {
      AlignFromDisjoint(a, b, i + 1);
      if b != [] { RemovedNext(a, b, i); }
    } else {
      AlignFromAdds(a, b, 0);
    }
  }

  lemma {:induction false} AlignFromAdds(a: seq<string>, b: seq<string>, j: nat)
    requires j <= |b|
    ensures AlignFrom(a, b, |a|, j) == AddFrom(b, j)
    decreases |b| - j
  {
    if j < |b| { AlignFromAdds(a, b, j + 1); }
  }

  lemma AlignDisjoint(a: seq<string>, b: seq<string>)
    requires Disjoint(a, b)
    ensures Align(a, b) == RemoveFrom(a, 0) + AddFrom(b, 0)
  {
    AlignFromDisjoint(a, b, 0);
  }

  // ----- Edited values are shown as changed

  lemma {:induction false} RemoveAt(a: seq<string>, i: nat, k: nat)
    requires i <= k < |a|
    ensures |RemoveFrom(a, i)| == |a| - i && RemoveFrom(a, i)[k - i] == Removed(a[k], k + 1)
    decreases |a| - i
  {
    if i < k { RemoveAt(a, i + 1, k); } else if i + 1 < |a| { RemoveAt(a, i + 1, i + 1); }
  }

  lemma {:induction false} AddAt(b: seq<string>, j: nat, k: nat)
    requires j <= k < |b|
    ensures |AddFrom(b, j)| == |b| - j && AddFrom(b, j)[k - j] == Added(b[k], k + 1)
    decreases |b| - j
  {
    if j < k { AddAt(b, j + 1, k); } else if j + 1 < |b| { AddAt(b, j + 1, j + 1); }
  }

  /** The two lines have one plain key. */
  predicate OneKey(left: string, right: string) {
    YamlKey(left).Some? && YamlKey(left) == YamlKey(right) && !YamlKey(left).value.dash
  }

  lemma PairedRuns(removed: seq<Op>, added: seq<Op>)
    requires removed != [] && Runs(removed, added) && Pairable(removed, added)
    ensures PairChanges(removed + added) == Zip(removed, added)
  {
    hide PairChanges, SameKey;
    PairOfChunk(removed, added, []);
    assert removed + added + [] == removed + added;
    PairOfNothing();
  }

  lemma WholeRuns(a: seq<string>, b: seq<string>, k: nat)
    requires k < |a| == |b|
    ensures |RemoveFrom(a, 0)| == |AddFrom(b, 0)| == |a|
    ensures RemoveFrom(a, 0)[k] == Removed(a[k], k + 1) && AddFrom(b, 0)[k] == Added(b[k], k + 1)
  {
    RemoveAt(a, 0, k);
    AddAt(b, 0, k);
  }

  /** Documents of as many lines, with the same plain keys line by line and no line in common: every line is
      shown as changed. */
  lemma EditedLinesAreChanged(a: seq<string>, b: seq<string>)
    requires |a| == |b| && Disjoint(a, b) && forall k | 0 <= k < |a| :: OneKey(a[k], b[k])
    ensures DiffLines(a, b) == seq(|a|, k requires 0 <= k < |a| => Changed(a[k], b[k], k + 1, k + 1))
  {
    hide Align, RemoveFrom, AddFrom, YamlKey, PairChanges;
    AlignDisjoint(a, b);
    if a == [] {
      NoRuns();
      PairOfNothing();
    } else {
      var removed, added := RemoveFrom(a, 0), AddFrom(b, 0);
      WholeRuns(a, b, 0);
      forall k | 0 <= k < |a|
        ensures removed[k] == Removed(a[k], k + 1) && added[k] == Added(b[k], k + 1) && SameKey(removed[k], added[k])
      {
        WholeRuns(a, b, k);
        assert OneKey(a[k], b[k]);
      }
      PairedRuns(removed, added);
    }
  }

  lemma NoRuns()
    ensures RemoveFrom([], 0) + AddFrom([], 0) == []
  {
  }
}
