/** What the pairing pass pairs, and that it leaves nothing to pair. */
module PairingTheorems {
  import opened LineDiff
  import opened ChangePairing

  /** The two sides have the same key, which is not that of a list item. */
  predicate KeysAgree(op: Op) {
    && op.Changed? && YamlKey(op.left).Some? && YamlKey(op.left) == YamlKey(op.right)
    && !YamlKey(op.left).value.dash
  }

  lemma MergeSharesKey(removed: Op, added: Op)
    requires removed.Removed? && added.Added? && SameKey(removed, added)
    ensures KeysAgree(Merge(removed, added))
  {
    hide YamlKey;
  }

  lemma RunSharesKey(removed: seq<Op>, added: seq<Op>, op: Op)
    requires Runs(removed, added)
    ensures op in PairRun(removed, added) ==> op in removed || op in added || KeysAgree(op)
  {
    hide KeysAgree, SameKey;
    if op in PairRun(removed, added) && op !in removed && op !in added {
      var k :| 0 <= k < |removed| && Zip(removed, added)[k] == op;
      MergeSharesKey(removed[k], added[k]);
    }
  }

  /** A line newly shown as changed joins two lines with the same plain key. */
  lemma {:induction false} ChangedSharesKey(ops: seq<Op>, op: Op)
    requires op in PairChanges(ops) && op !in ops
    ensures KeysAgree(op)
  {
    hide KeysAgree, RemovedRun, AddedRun, PairRun, Runs;
    if ops != [] && !ops[0].Removed? {
      ChangedSharesKey(ops[1..], op);
    } else if ops != [] {
      var r, a := RemovedRun(ops), ChunkEnd(ops);
      if op in FirstChunk(ops) {
        RunSharesKey(ops[..r], ops[r..a], op);
      } else {
        PairUnfold(ops);
        ChangedSharesKey(ops[a..], op);
      }
    }
  }

  lemma {:induction false} PairShrinks(ops: seq<Op>)
    ensures |PairChanges(ops)| <= |ops|
  {
    if ops == [] {
    } else if !ops[0].Removed? {
      PairShrinks(ops[1..]);
    } else {
      PairShrinks(ops[ChunkEnd(ops)..]);
    }
  }

  lemma {:induction false} RunsOfPrefix(x: seq<Op>, z: seq<Op>)
    requires z != [] && z[0].Removed? && (x != [] ==> !x[|x| - 1].Removed?)
    ensures RemovedRun(x + z) == RemovedRun(x) || x == []
    ensures AddedRun(x + z) == AddedRun(x)
  {
    if x == [] {
      assert x + z == z;
    } else {
      assert (x + z)[1..] == x[1..] + z;
      if |x| > 1 { assert x[1..][|x| - 2] == x[|x| - 1]; }
      RunsOfPrefix(x[1..], z);
    }
  }

  lemma Suffix(x: seq<Op>, z: seq<Op>, r: nat)
    requires r <= |x|
    ensures (x + z)[r..] == x[r..] + z
    ensures r < |x| ==> x[r..] != [] && x[r..][|x[r..]| - 1] == x[|x| - 1]
  {
  }

  lemma ChunkEndOfPrefix(x: seq<Op>, z: seq<Op>)
    requires z != [] && z[0].Removed? && x != [] && !x[|x| - 1].Removed?
    ensures RemovedRun(x + z) == RemovedRun(x) && ChunkEnd(x + z) == ChunkEnd(x)
  {
    hide RemovedRun, AddedRun, Runs;
    var r := RemovedRun(x);
    RunsOfPrefix(x, z);
    Suffix(x, z, r);
    RunsOfPrefix(x[r..], z);
  }

  lemma ChunkOfPrefix(x: seq<Op>, z: seq<Op>)
    requires z != [] && z[0].Removed? && x != [] && !x[|x| - 1].Removed?
    ensures ChunkEnd(x + z) == ChunkEnd(x) && FirstChunk(x + z) == FirstChunk(x)
  {
    hide RemovedRun, AddedRun, PairRun, ChunkEnd, Runs;
    ChunkEndOfPrefix(x, z);
    var r, a := RemovedRun(x), ChunkEnd(x);
    assert (x + z)[..r] == x[..r] && (x + z)[r..a] == x[r..a];
  }

  /** A removed line behind something else starts a chunk of its own. */
  lemma {:induction false} PairSplits(x: seq<Op>, z: seq<Op>)
    requires z != [] && z[0].Removed? && (x != [] ==> !x[|x| - 1].Removed?)
    ensures PairChanges(x + z) == PairChanges(x) + PairChanges(z)
    decreases |x|
  {
    hide *;
    if x == [] {
      assert x + z == z;
      PairOfNothing();
    } else if !x[0].Removed? {
      Suffix(x, z, 1);
      assert x == [x[0]] + x[1..] && x + z == [x[0]] + (x[1..] + z);
      PairCons(x[0], x[1..]);
      PairCons(x[0], x[1..] + z);
      PairSplits(x[1..], z);
    } else {
      var rest, chunk := ChunkAndRest(x, z);
      PairSplits(rest, z);
    }
  }

  /** The leading chunk is the same with or without what follows. */
  lemma ChunkAndRest(x: seq<Op>, z: seq<Op>) returns (rest: seq<Op>, chunk: seq<Op>)
    requires z != [] && z[0].Removed? && x != [] && x[0].Removed? && !x[|x| - 1].Removed?
    ensures |rest| < |x| && (rest != [] ==> !rest[|rest| - 1].Removed?)
    ensures PairChanges(x) == chunk + PairChanges(rest) && PairChanges(x + z) == chunk + PairChanges(rest + z)
  {
    hide FirstChunk, ChunkEnd, PairChanges;
    ChunkOfPrefix(x, z);
    Suffix(x, z, ChunkEnd(x));
    PairUnfold(x);
    PairUnfold(x + z);
    rest, chunk := x[ChunkEnd(x)..], FirstChunk(x);
  }

  lemma PairUnfold(ops: seq<Op>)
    requires ops != [] && ops[0].Removed?
    ensures ChunkEnd(ops) > 0 && PairChanges(ops) == FirstChunk(ops) + PairChanges(ops[ChunkEnd(ops)..])
  {
    assert ChunkEnd(ops) > 0;
    hide FirstChunk, ChunkEnd;
  }

  lemma PairRunShrinks(removed: seq<Op>, added: seq<Op>)
    requires Runs(removed, added) && removed != []
    ensures Pairable(removed, added) <==> |PairRun(removed, added)| < |removed| + |added|
  {
    hide SameKey;
  }

  /** Where a removed run is followed by an added run in the result, the two are not pairable. */
  lemma NothingLeftToPair(ops: seq<Op>, x: seq<Op>, removed: seq<Op>, added: seq<Op>, y: seq<Op>)
    requires PairChanges(ops) == x + (removed + added + y) && Runs(removed, added) && removed != []
    requires (x != [] ==> !x[|x| - 1].Removed?) && (y != [] ==> !y[0].Added? && (added == [] ==> !y[0].Removed?))
    ensures !Pairable(removed, added)
  {
    hide PairChanges, Pairable, PairRun;
    PairIsIdempotent(ops);
    PairSplits(x, removed + added + y);
    PairOfChunk(removed, added, y);
    PairShrinks(x);
    PairShrinks(y);
    PairRunShrinks(removed, added);
  }
}
