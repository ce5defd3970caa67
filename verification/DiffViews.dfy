/** What the history screens show of a diff: the summary counts and the two side-by-side panes. */
module DiffViews {
  import opened LineDiff
  import opened ChangePairing

  function DiffLines(a: seq<string>, b: seq<string>): seq<Op> { PairChanges(Align(a, b)) }

  // ----- summarize

  datatype Summary = Summary(added: nat, removed: nat, changed: nat, same: nat, hunks: nat)

  function CountEqual(ops: seq<Op>): nat {
    if ops == [] then 0 else (if ops[0].Equal? then 1 else 0) + CountEqual(ops[1..])
  }

  function CountAdded(ops: seq<Op>): nat {
    if ops == [] then 0 else (if ops[0].Added? then 1 else 0) + CountAdded(ops[1..])
  }

  function CountRemoved(ops: seq<Op>): nat {
    if ops == [] then 0 else (if ops[0].Removed? then 1 else 0) + CountRemoved(ops[1..])
  }

  function CountChanged(ops: seq<Op>): nat {
    if ops == [] then 0 else (if ops[0].Changed? then 1 else 0) + CountChanged(ops[1..])
  }

  /** Maximal runs of non-equal operations that start in ops; a run is already open when inHunk. */
  function Hunks(ops: seq<Op>, inHunk: bool): nat {
    if ops == [] then 0
    else if ops[0].Equal? then Hunks(ops[1..], false)
    else (if inHunk then 0 else 1) + Hunks(ops[1..], true)
  }

  function Summarize(ops: seq<Op>): Summary {
    Summary(CountAdded(ops), CountRemoved(ops), CountChanged(ops), CountEqual(ops), Hunks(ops, false))
  }

  function Plus(s: Summary, t: Summary): Summary {
    Summary(s.added + t.added, s.removed + t.removed, s.changed + t.changed,
            s.same + t.same, s.hunks + t.hunks)
  }

  method SummarizeLoop(ops: seq<Op>) returns (s: Summary)
    ensures s == Summarize(ops)
  {
    s := Summary(0, 0, 0, 0, 0);
    var inHunk := false;
    for i := 0 to |ops|
      invariant Plus(s, Summarize(ops[i..]).(hunks := Hunks(ops[i..], inHunk))) == Summarize(ops)
    {
      assert ops[i..][1..] == ops[i + 1..];
      var op := ops[i];
      if op.Equal? {
        s := s.(same := s.same + 1);
        inHunk := false;
      } else {
        if !inHunk {
          s := s.(hunks := s.hunks + 1);
          inHunk := true;
        }
        if op.Added? {
          s := s.(added := s.added + 1);
        } else if op.Removed? {
          s := s.(removed := s.removed + 1);
        } else {
          s := s.(changed := s.changed + 1);
        }
      }
    }
  }

  lemma {:induction false} KeptCount(ops: seq<Op>)
    ensures |Kept(ops)| == CountEqual(ops)
  {
    if ops != [] { KeptCount(ops[1..]); }
  }

  lemma {:induction false} SideCount(ops: seq<Op>)
    ensures |Lines(Left, ops)| == CountEqual(ops) + CountRemoved(ops) + CountChanged(ops)
    ensures |Lines(Right, ops)| == CountEqual(ops) + CountAdded(ops) + CountChanged(ops)
  {
    if ops != [] { SideCount(ops[1..]); }
  }

  /** A non-empty run without equal operations is one hunk, or continues one. */
  lemma {:induction false} HunkRun(run: seq<Op>, rest: seq<Op>, inHunk: bool)
    requires run != [] && forall k | 0 <= k < |run| :: !run[k].Equal?
    ensures Hunks(run + rest, inHunk) == (if inHunk then 0 else 1) + Hunks(rest, true)
  {
    assert (run + rest)[1..] == run[1..] + rest;
    if |run| == 1 {
      assert (run + rest)[1..] == rest;
    } else {
      HunkRun(run[1..], rest, true);
    }
  }

  /** A chunk of the pairing pass, before and after: no equal operation in either. */
  lemma ChunkHasNoEqual(ops: seq<Op>)
    requires ops != [] && ops[0].Removed?
    ensures var run := ops[..RemovedRun(ops)] + ops[RemovedRun(ops)..ChunkEnd(ops)];
      && run != [] && (forall k | 0 <= k < |run| :: !run[k].Equal?)
      && FirstChunk(ops) != [] && (forall k | 0 <= k < |FirstChunk(ops)| :: !FirstChunk(ops)[k].Equal?)
  {
    hide SameKey;
  }

  /** Pairing neither splits nor joins hunks. */
  lemma {:induction false} PairKeepsHunks(ops: seq<Op>, inHunk: bool)
    ensures Hunks(PairChanges(ops), inHunk) == Hunks(ops, inHunk)
  {
    if ops == [] {
    } else if !ops[0].Removed? {
      PairKeepsHunks(ops[1..], !ops[0].Equal?);
      assert PairChanges(ops)[1..] == PairChanges(ops[1..]);
    } else {
      hide RemovedRun, AddedRun, PairRun, Hunks;
      var r, a := RemovedRun(ops), ChunkEnd(ops);
      ChunkHasNoEqual(ops);
      PairKeepsHunks(ops[a..], true);
      HunkRun(ops[..r] + ops[r..a], ops[a..], inHunk);
      HunkRun(FirstChunk(ops), PairChanges(ops[a..]), inHunk);
      Chunks(ops);
    }
  }

  /** The counts account for every line of both documents, and pairing keeps
      the unchanged and the hunk count of the raw alignment. */
  lemma SummaryConserves(a: seq<string>, b: seq<string>)
    ensures var s, raw := Summarize(DiffLines(a, b)), Summarize(Align(a, b));
      && s.same + s.removed + s.changed == |a|
      && s.same + s.added + s.changed == |b|
      && s.same == raw.same && s.hunks == raw.hunks
  {
    hide Align, PairChanges, Lines, Kept, Numbered, Honest, Hunks, CountEqual, CountAdded, CountRemoved, CountChanged;
    NumberedTexts(a);
    NumberedTexts(b);
    var raw := Align(a, b);
    var ops := PairChanges(raw);
    AlignReconstructs(Left, a, b);
    AlignReconstructs(Right, a, b);
    PairKeepsLines(Left, raw);
    PairKeepsLines(Right, raw);
    PairKeepsHunks(raw, false);
    SideCount(ops);
    KeptCount(raw);
    KeptCount(ops);
  }

  lemma {:induction false} NoHunks(ops: seq<Op>)
    ensures Hunks(ops, false) == 0 <==> CountAdded(ops) + CountRemoved(ops) + CountChanged(ops) == 0
    ensures Hunks(ops, false) == 0 ==>
      Texts(Lines(Left, ops)) == Kept(ops) && |Lines(Right, ops)| == |Kept(ops)|
  {
    if ops != [] {
      NoHunks(ops[1..]);
      HunksBound(ops[1..]);
      if ops[0].Equal? && Hunks(ops, false) == 0 {
        assert Texts(Lines(Left, ops)) == [ops[0].left] + Texts(Lines(Left, ops[1..]));
      }
    }
  }

  lemma {:induction false} HunksBound(ops: seq<Op>)
    ensures Hunks(ops, true) <= Hunks(ops, false) <= Hunks(ops, true) + 1
  {
  }

  lemma {:induction false} SubsequenceOfSameLength(s: seq<string>, t: seq<string>)
    requires |s| >= |t|
    ensures Subsequence(s, t) <==> s == t
    decreases |t|
  {
    if s != [] && t != [] {
      SubsequenceOfSameLength(s, t[1..]);
      SubsequenceOfSameLength(s[1..], t[1..]);
      assert s == [s[0]] + s[1..] && t == [t[0]] + t[1..];
    }
  }

  /** "no changes" is shown exactly when the documents are equal, as long as the
      table was built; a whole-document replace always reports a hunk, even of
      two equal documents. */
  lemma NoChangesIffEqual(a: seq<string>, b: seq<string>)
    ensures Summarize(DiffLines(a, b)).hunks == 0 <==> a == b && |a| * |b| <= MAX_CELLS
  {
    var raw := Align(a, b);
    SummaryConserves(a, b);
    AlignReconstructs(Left, a, b);
    AlignReconstructs(Right, a, b);
    AlignIsOptimal(a, b);
    NoHunks(raw);
    KeptCount(raw);
    SideCount(raw);
    NumberedTexts(a);
    NumberedTexts(b);
    if a == b && |a| * |b| <= MAX_CELLS {
      SubsequenceOfSameLength(a, b);
      assert |a| <= |Kept(raw)|;
    }
    if Hunks(raw, false) == 0 {
      SubsequenceOfSameLength(Kept(raw), b);
    }
  }

  // ----- sideBySide

  datatype Kind = Context | AddedLine | RemovedLine | ChangedLine

  datatype Row = Row(kind: Kind, text: string, n: nat)

  function KindOf(op: Op): Kind {
    match op
    case Equal(_, _, _, _) => Context
    case Added(_, _) => AddedLine
    case Removed(_, _) => RemovedLine
    case Changed(_, _, _, _) => ChangedLine
  }

  function RowOf(side: Side, op: Op): Row
    requires Shows(side, op)
  {
    var line := LineOf(side, op);
    Row(KindOf(op), line.text, line.n)
  }

  function Pane(side: Side, ops: seq<Op>): seq<Row> {
    if ops == [] then []
    else if Shows(side, ops[0]) then [RowOf(side, ops[0])] + Pane(side, ops[1..])
    else Pane(side, ops[1..])
  }

  method SideBySide(ops: seq<Op>) returns (left: seq<Row>, right: seq<Row>)
    ensures left == Pane(Left, ops) && right == Pane(Right, ops)
  {
    hide Pane;
    left, right := [], [];
    assert ops[0..] == ops;
    for i := 0 to |ops|
      invariant left + Pane(Left, ops[i..]) == Pane(Left, ops)
      invariant right + Pane(Right, ops[i..]) == Pane(Right, ops)
    {
      PaneAt(Left, ops, i);
      PaneAt(Right, ops, i);
      match ops[i] {
        case Equal(l, r, ln, rn) =>
          left := left + [Row(Context, l, ln)];
          right := right + [Row(Context, r, rn)];
        case Removed(l, ln) =>
          left := left + [Row(RemovedLine, l, ln)];
        case Added(r, rn) =>
          right := right + [Row(AddedLine, r, rn)];
        case Changed(l, r, ln, rn) =>
          left := left + [Row(ChangedLine, l, ln)];
          right := right + [Row(ChangedLine, r, rn)];
      }
    }
    PaneOfNothing(Left, ops);
    PaneOfNothing(Right, ops);
  }

  lemma PaneAt(side: Side, ops: seq<Op>, i: nat)
    requires i < |ops|
    ensures Pane(side, ops[i..]) ==
      (if Shows(side, ops[i]) then [RowOf(side, ops[i])] else []) + Pane(side, ops[i + 1..])
  {
    hide RowOf, Shows;
    assert ops[i..][1..] == ops[i + 1..];
  }

  lemma PaneOfNothing(side: Side, ops: seq<Op>)
    ensures Pane(side, ops[|ops|..]) == []
  {
  }

  /** A pane without its tones. */
  function Plain(rows: seq<Row>): seq<Line> {
    seq(|rows|, i requires 0 <= i < |rows| => Line(rows[i].text, rows[i].n))
  }

  lemma {:induction false} PaneShowsLines(side: Side, ops: seq<Op>)
    ensures Plain(Pane(side, ops)) == Lines(side, ops)
  {
    if ops != [] {
      PaneShowsLines(side, ops[1..]);
      if Shows(side, ops[0]) {
        assert Plain(Pane(side, ops)) == [LineOf(side, ops[0])] + Plain(Pane(side, ops[1..]));
      }
    }
  }

  /** End to end: each pane is exactly its document, numbered from 1. */
  lemma PanesAreTheDocuments(side: Side, a: seq<string>, b: seq<string>)
    ensures Plain(Pane(side, DiffLines(a, b))) == Numbered(Document(side, a, b))
  {
    AlignReconstructs(side, a, b);
    PairKeepsLines(side, Align(a, b));
    PaneShowsLines(side, DiffLines(a, b));
  }
}
