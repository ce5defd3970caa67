/** The second diff pass: a removed run followed by an added run of the same shape
    becomes a run of changed lines. */
module ChangePairing {
  import opened Common
  import opened LineDiff

  // ----- yamlKey

  /** Indent width, whether the line is a list item, and the key itself. */
  datatype Key = Key(indent: nat, dash: bool, name: string)

  predicate IsSpace(c: char) {
    c in " \t\n\r" || c as int in {0x0B, 0x0C, 0xA0, 0x1680, 0x2028, 0x2029, 0x202F, 0x205F, 0x3000, 0xFEFF}
    || 0x2000 <= c as int <= 0x200A
  }

  predicate IsNameStart(c: char) { 'a' <= c <= 'z' || 'A' <= c <= 'Z' || c == '_' }

  predicate IsNamePart(c: char) { IsNameStart(c) || '0' <= c <= '9' || c == '.' || c == '-' }

  /** Length of the longest prefix made of spaces. */
  function Spaces(s: string): (n: nat)
    ensures n <= |s|
  {
    if s != [] && IsSpace(s[0]) then 1 + Spaces(s[1..]) else 0
  }

  /** Length of the longest prefix made of name characters. */
  function NameLength(s: string): (n: nat)
    ensures n <= |s|
  {
    if s != [] && IsNamePart(s[0]) then 1 + NameLength(s[1..]) else 0
  }

  function YamlKey(line: string): Option<Key> {
    var indent := Spaces(line);
    var body := line[indent..];
    var dash := |body| > 1 && body[0] == '-' && IsSpace(body[1]);
    var item := if dash then body[1..][Spaces(body[1..])..] else body;
    var len := NameLength(item);
    var rest := item[len..][Spaces(item[len..])..];
    if item != [] && IsNameStart(item[0]) && rest != [] && rest[0] == ':'
    then Some(Key(indent, dash, item[..len]))
    else None
  }

  // ----- pairChanges

  function RemovedRun(ops: seq<Op>): (n: nat)
    ensures n <= |ops| && (forall k | 0 <= k < n :: ops[k].Removed?) && (n < |ops| ==> !ops[n].Removed?)
  {
    if ops != [] && ops[0].Removed? then 1 + RemovedRun(ops[1..]) else 0
  }

  function AddedRun(ops: seq<Op>): (n: nat)
    ensures n <= |ops| && (forall k | 0 <= k < n :: ops[k].Added?) && (n < |ops| ==> !ops[n].Added?)
  {
    if ops != [] && ops[0].Added? then 1 + AddedRun(ops[1..]) else 0
  }

  /** Two lines carry the same plain (not list item) key. */
  predicate SameKey(removed: Op, added: Op)
    requires removed.Removed? && added.Added?
  {
    var k := YamlKey(removed.left);
    k.Some? && k == YamlKey(added.right) && !k.value.dash
  }

  ghost predicate Runs(removed: seq<Op>, added: seq<Op>) {
    && (forall k | 0 <= k < |removed| :: removed[k].Removed?)
    && (forall k | 0 <= k < |added| :: added[k].Added?)
  }

  predicate Pairable(removed: seq<Op>, added: seq<Op>)
    requires Runs(removed, added)
  {
    |removed| == |added| && forall k | 0 <= k < |removed| :: SameKey(removed[k], added[k])
  }

  function Merge(removed: Op, added: Op): Op
    requires removed.Removed? && added.Added?
  {
    Changed(removed.left, added.right, removed.leftN, added.rightN)
  }

  function Zip(removed: seq<Op>, added: seq<Op>): seq<Op>
    requires Runs(removed, added) && |removed| == |added|
  {
    seq(|removed|, k requires 0 <= k < |removed| => Merge(removed[k], added[k]))
  }

  function PairRun(removed: seq<Op>, added: seq<Op>): seq<Op>
    requires Runs(removed, added)
  {
    if Pairable(removed, added) then Zip(removed, added) else removed + added
  }

  /** End of the added run that follows the leading removed run. */
  function ChunkEnd(ops: seq<Op>): (a: nat)
    ensures RemovedRun(ops) <= a <= |ops|
    ensures Runs(ops[..RemovedRun(ops)], ops[RemovedRun(ops)..a])
  {
    RemovedRun(ops) + AddedRun(ops[RemovedRun(ops)..])
  }

  function FirstChunk(ops: seq<Op>): seq<Op> {
    PairRun(ops[..RemovedRun(ops)], ops[RemovedRun(ops)..ChunkEnd(ops)])
  }

  function PairChanges(ops: seq<Op>): seq<Op> {
    if ops == [] then []
    else if !ops[0].Removed? then [ops[0]] + PairChanges(ops[1..])
    else FirstChunk(ops) + PairChanges(ops[ChunkEnd(ops)..])
  }

  lemma RemovedRunAt(ops: seq<Op>, i: nat)
    requires i < |ops| && ops[i].Removed?
    ensures RemovedRun(ops[i..]) == 1 + RemovedRun(ops[i + 1..])
  {
    assert ops[i..][1..] == ops[i + 1..];
  }

  method TakeRemoved(ops: seq<Op>, start: nat) returns (run: seq<Op>, i: nat)
    requires start <= |ops|
    ensures i == start + RemovedRun(ops[start..]) && run == ops[start..i]
  {
    hide RemovedRun;
    run, i := [], start;
    while i < |ops| && ops[i].Removed?
      invariant start <= i <= |ops| && run == ops[start..i]
      invariant i + RemovedRun(ops[i..]) == start + RemovedRun(ops[start..])
    {
      RemovedRunAt(ops, i);
      run, i := run + [ops[i]], i + 1;
    }
  }

  lemma AddedRunAt(ops: seq<Op>, i: nat)
    requires i < |ops| && ops[i].Added?
    ensures AddedRun(ops[i..]) == 1 + AddedRun(ops[i + 1..])
  {
    assert ops[i..][1..] == ops[i + 1..];
  }

  method TakeAdded(ops: seq<Op>, start: nat) returns (run: seq<Op>, i: nat)
    requires start <= |ops|
    ensures i == start + AddedRun(ops[start..]) && run == ops[start..i]
  {
    hide AddedRun;
    run, i := [], start;
    while i < |ops| && ops[i].Added?
      invariant start <= i <= |ops| && run == ops[start..i]
      invariant i + AddedRun(ops[i..]) == start + AddedRun(ops[start..])
    {
      AddedRunAt(ops, i);
      run, i := run + [ops[i]], i + 1;
    }
  }

  method ZipLoop(removed: seq<Op>, added: seq<Op>) returns (out: seq<Op>)
    requires Runs(removed, added) && |removed| == |added|
    ensures out == Zip(removed, added)
  {
    out := [];
    for k := 0 to |removed|
      invariant |out| == k && forall i | 0 <= i < k :: out[i] == Merge(removed[i], added[i])
    {
      out := out + [Merge(removed[k], added[k])];
    }
  }

  method EmitRun(removed: seq<Op>, added: seq<Op>) returns (out: seq<Op>)
    requires Runs(removed, added)
    ensures out == PairRun(removed, added)
  {
    if Pairable(removed, added) {
      out := ZipLoop(removed, added);
    } else {
      out := removed + added;
    }
  }

  lemma PairChangesPast(ops: seq<Op>, i: nat)
    requires i < |ops| && !ops[i].Removed?
    ensures PairChanges(ops[i..]) == [ops[i]] + PairChanges(ops[i + 1..])
  {
    assert ops[i..][1..] == ops[i + 1..];
  }

  lemma PairChangesAt(ops: seq<Op>, i: nat, r: nat, a: nat)
    requires i < |ops| && ops[i].Removed?
    requires r == i + RemovedRun(ops[i..]) && a == r + AddedRun(ops[r..])
    ensures r <= a <= |ops| && Runs(ops[i..r], ops[r..a])
    ensures PairChanges(ops[i..]) == PairRun(ops[i..r], ops[r..a]) + PairChanges(ops[a..])
  {
    hide RemovedRun, AddedRun, PairRun, Runs;
    var rest := ops[i..];
    SliceOfSuffix(ops, i, r, a);
    assert RemovedRun(rest) == r - i && ChunkEnd(rest) == a - i;
  }

  lemma SliceOfSuffix(ops: seq<Op>, i: nat, r: nat, a: nat)
    requires i <= r <= a <= |ops|
    ensures ops[i..][r - i..] == ops[r..] && ops[i..][..r - i] == ops[i..r]
    ensures ops[i..][r - i..a - i] == ops[r..a] && ops[i..][a - i..] == ops[a..]
  {
  }

  lemma PairOfNothing()
    ensures PairChanges([]) == []
  {
  }

  /** The imperative pass over the whole list. */
  method PairChangesLoop(ops: seq<Op>) returns (out: seq<Op>)
    ensures out == PairChanges(ops)
  {
    hide PairChanges, PairRun, RemovedRun, AddedRun, Runs;
    out := [];
    var i := 0;
    assert ops[0..] == ops;
    while i < |ops|
      invariant 0 <= i <= |ops|
      invariant out + PairChanges(ops[i..]) == PairChanges(ops)
    {
      if !ops[i].Removed? {
        PairChangesPast(ops, i);
        out, i := out + [ops[i]], i + 1;
      } else {
        var removed, r := TakeRemoved(ops, i);
        var added, a := TakeAdded(ops, r);
        PairChangesAt(ops, i, r, a);
        var run := EmitRun(removed, added);
        out, i := out + run, a;
      }
    }
    assert ops[i..] == [];
    PairOfNothing();
  }

  // ----- What the pass preserves

  /** The list is its leading removed run, the added run behind it, and the rest. */
  lemma Chunks(ops: seq<Op>)
    ensures ops == ops[..RemovedRun(ops)] + ops[RemovedRun(ops)..ChunkEnd(ops)] + ops[ChunkEnd(ops)..]
  {
    hide RemovedRun, ChunkEnd, Runs;
    var r, a := RemovedRun(ops), ChunkEnd(ops);
    assert ops == ops[..r] + ops[r..a] + ops[a..];
  }

  lemma {:induction false} ZipLines(side: Side, removed: seq<Op>, added: seq<Op>)
    requires Runs(removed, added) && |removed| == |added|
    ensures Lines(side, Zip(removed, added)) == Lines(side, removed) + Lines(side, added)
    ensures side.Left? ==> Lines(side, added) == []
    ensures side.Right? ==> Lines(side, removed) == []
    ensures Kept(Zip(removed, added)) == Kept(removed) == Kept(added) == []
  {
    if removed != [] {
      ZipLines(side, removed[1..], added[1..]);
      assert Zip(removed, added)[1..] == Zip(removed[1..], added[1..]);
    }
  }

  lemma RunKeepsLines(side: Side, removed: seq<Op>, added: seq<Op>)
    requires Runs(removed, added)
    ensures Lines(side, PairRun(removed, added)) == Lines(side, removed + added)
    ensures Kept(PairRun(removed, added)) == Kept(removed + added)
  {
    if Pairable(removed, added) {
      LinesConcat(side, removed, added);
      KeptConcat(removed, added);
      ZipLines(side, removed, added);
    }
  }

  /** Pairing moves no line: both documents and the kept lines read the same. */
  lemma {:induction false} PairKeepsLines(side: Side, ops: seq<Op>)
    ensures Lines(side, PairChanges(ops)) == Lines(side, ops)
    ensures Kept(PairChanges(ops)) == Kept(ops)
  {
    if ops == [] {
    } else if !ops[0].Removed? {
      PairKeepsLines(side, ops[1..]);
      assert PairChanges(ops)[1..] == PairChanges(ops[1..]);
    } else {
      var r, a := RemovedRun(ops), ChunkEnd(ops);
      PairKeepsLines(side, ops[a..]);
      RunKeepsLines(side, ops[..r], ops[r..a]);
      LinesConcat(side, FirstChunk(ops), PairChanges(ops[a..]));
      LinesConcat(side, ops[..r] + ops[r..a], ops[a..]);
      KeptConcat(FirstChunk(ops), PairChanges(ops[a..]));
      KeptConcat(ops[..r] + ops[r..a], ops[a..]);
      Chunks(ops);
    }
  }

  /** Pairing never moves a removed or an added operation to the front. */
  lemma PairHead(ops: seq<Op>)
    ensures PairChanges(ops) == [] <==> ops == []
    ensures ops != [] && PairChanges(ops)[0].Removed? ==> ops[0].Removed?
    ensures ops != [] && PairChanges(ops)[0].Added? ==> ops[0].Added?
  {
    if ops != [] && ops[0].Removed? {
      assert FirstChunk(ops) != [];
      assert FirstChunk(ops)[0].Changed? || FirstChunk(ops)[0] == ops[0];
    }
  }

  lemma {:induction false} LeadingRemoved(run: seq<Op>, rest: seq<Op>)
    requires forall k | 0 <= k < |run| :: run[k].Removed?
    requires rest != [] ==> !rest[0].Removed?
    ensures RemovedRun(run + rest) == |run|
  {
    if run == [] {
      assert run + rest == rest;
    } else {
      LeadingRemoved(run[1..], rest);
      assert (run + rest)[1..] == run[1..] + rest;
    }
  }

  lemma {:induction false} LeadingAdded(run: seq<Op>, rest: seq<Op>)
    requires forall k | 0 <= k < |run| :: run[k].Added?
    requires rest != [] ==> !rest[0].Added?
    ensures AddedRun(run + rest) == |run|
  {
    if run == [] {
      assert run + rest == rest;
    } else {
      LeadingAdded(run[1..], rest);
      assert (run + rest)[1..] == run[1..] + rest;
    }
  }

  lemma PairCons(op: Op, rest: seq<Op>)
    requires !op.Removed?
    ensures PairChanges([op] + rest) == [op] + PairChanges(rest)
  {
    assert ([op] + rest)[1..] == rest;
  }

  /** Changed lines in front are left alone. */
  lemma {:induction false} PairSkipsChanged(run: seq<Op>, rest: seq<Op>)
    requires forall k | 0 <= k < |run| :: run[k].Changed?
    ensures PairChanges(run + rest) == run + PairChanges(rest)
  {
    hide PairChanges;
    if run == [] {
      assert run + rest == rest;
    } else {
      PairSkipsChanged(run[1..], rest);
      PairCons(run[0], run[1..] + rest);
      assert run + rest == [run[0]] + (run[1..] + rest);
    }
  }

  /** A removed run and an added run are read back as that one chunk. */
  lemma PairOfChunk(removed: seq<Op>, added: seq<Op>, rest: seq<Op>)
    requires Runs(removed, added) && removed != []
    requires rest != [] ==> !rest[0].Added? && (added == [] ==> !rest[0].Removed?)
    ensures PairChanges(removed + added + rest) == PairRun(removed, added) + PairChanges(rest)
  {
    var ops := removed + added + rest;
    assert ops == removed + (added + rest);
    LeadingRemoved(removed, added + rest);
    assert ops[|removed|..] == added + rest;
    LeadingAdded(added, rest);
    assert ops[..|removed|] == removed;
    assert ops[|removed|..|removed| + |added|] == added;
    assert ops[|removed| + |added|..] == rest;
  }

  /** A second pass changes nothing. */
  lemma {:induction false} PairIsIdempotent(ops: seq<Op>)
    ensures PairChanges(PairChanges(ops)) == PairChanges(ops)
  {
    if ops == [] {
    } else if !ops[0].Removed? {
      PairIsIdempotent(ops[1..]);
      assert PairChanges(ops)[1..] == PairChanges(ops[1..]);
    } else {
      var r, a := RemovedRun(ops), ChunkEnd(ops);
      var removed, added, rest := ops[..r], ops[r..a], ops[a..];
      PairIsIdempotent(rest);
      if Pairable(removed, added) {
        PairSkipsChanged(Zip(removed, added), PairChanges(rest));
      } else {
        PairHead(rest);
        assert rest != [] ==> rest[0] == ops[a] == ops[r..][a - r];
        PairOfChunk(removed, added, PairChanges(rest));
      }
    }
  }
}
