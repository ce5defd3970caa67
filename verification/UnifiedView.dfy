/** The unified view: every change is shown, runs of unchanged lines collapse to a
    count, with some context kept around the changes. */
module UnifiedView {
  import opened Common
  import opened LineDiff
  import opened DiffViews

  /** How much context to keep: everything, or n lines. */
  datatype Keep = Everything | Around(n: nat)

  /** A row of the view: a line, or "count unchanged lines". */
  datatype View = Shown(row: Row) | Hidden(count: nat)

  function FullRow(op: Op): Row { if op.Removed? then RowOf(Left, op) else RowOf(Right, op) }

  /** The uncollapsed view: one row per operation. */
  function FullView(ops: seq<Op>): seq<Row> {
    seq(|ops|, i requires 0 <= i < |ops| => FullRow(ops[i]))
  }

  function Show(ops: seq<Op>): seq<View> {
    seq(|ops|, i requires 0 <= i < |ops| => Shown(FullRow(ops[i])))
  }

  function EqualRun(ops: seq<Op>): (n: nat)
    ensures n <= |ops| && (forall k | 0 <= k < n :: ops[k].Equal?) && (n < |ops| ==> !ops[n].Equal?)
  {
    if ops != [] && ops[0].Equal? then 1 + EqualRun(ops[1..]) else 0
  }

  function HeadLength(length: nat, first: bool, n: nat): (h: nat)
    ensures h <= length
  {
    if first then 0 else Min(n, length)
  }

  /** Where the kept tail of an equal run starts. */
  function TailStart(length: nat, last: bool, n: nat): (t: nat)
    ensures t <= length
  {
    if last then length else Min(length, if n < length - n then length - n else n)
  }

  /** One equal run; first and last say whether it touches an end of the list. */
  function RunView(run: seq<Op>, first: bool, last: bool, keep: Keep): seq<View> {
    if keep.Everything? then Show(run)
    else
      var h, t := HeadLength(|run|, first, keep.n), TailStart(|run|, last, keep.n);
      Show(run[..h]) + (if h < t then [Hidden(t - h)] else []) + Show(run[t..])
  }

  /** The view of a suffix of the list; first when it is the whole list. */
  function Unified(ops: seq<Op>, first: bool, keep: Keep): seq<View> {
    if ops == [] then []
    else if !ops[0].Equal? then [Shown(FullRow(ops[0]))] + Unified(ops[1..], false, keep)
    else
      RunView(ops[..EqualRun(ops)], first, EqualRun(ops) == |ops|, keep) +
      Unified(ops[EqualRun(ops)..], false, keep)
  }

  method EmitRows(run: seq<Op>) returns (out: seq<View>)
    requires forall k | 0 <= k < |run| :: run[k].Equal?
    ensures out == Show(run)
  {
    out := [];
    for k := 0 to |run|
      invariant |out| == k && forall i | 0 <= i < k :: out[i] == Shown(FullRow(run[i]))
    {
      out := out + [Shown(Row(Context, run[k].right, run[k].rightN))];
    }
  }

  method EmitRun(run: seq<Op>, first: bool, last: bool, keep: Keep) returns (out: seq<View>)
    requires forall k | 0 <= k < |run| :: run[k].Equal?
    ensures out == RunView(run, first, last, keep)
  {
    hide Show, FullRow;
    if keep.Everything? {
      out := EmitRows(run);
    } else {
      var head := if first then [] else run[..Min(keep.n, |run|)];
      var from := Min(|run|, if keep.n < |run| - keep.n then |run| - keep.n else keep.n);
      var tail := if last then [] else run[from..];
      var hidden := |run| - |head| - |tail|;
      assert head == run[..HeadLength(|run|, first, keep.n)];
      assert tail == run[TailStart(|run|, last, keep.n)..];
      var h := EmitRows(head);
      var t := EmitRows(tail);
      out := h + (if hidden > 0 then [Hidden(hidden)] else []) + t;
    }
  }

  method EqualEnd(ops: seq<Op>, i: nat) returns (j: nat)
    requires i <= |ops|
    ensures j == i + EqualRun(ops[i..])
  {
    j := i;
    while j < |ops| && ops[j].Equal?
      invariant i <= j <= |ops| && j + EqualRun(ops[j..]) == i + EqualRun(ops[i..])
    {
      assert ops[j..][1..] == ops[j + 1..];
      j := j + 1;
    }
  }

  lemma UnifiedAt(ops: seq<Op>, i: nat, j: nat, keep: Keep)
    requires i < |ops| && j == i + EqualRun(ops[i..])
    ensures j <= |ops| && forall k | 0 <= k < j - i :: ops[i..j][k].Equal?
    ensures !ops[i].Equal? ==>
      Unified(ops[i..], i == 0, keep) == [Shown(FullRow(ops[i]))] + Unified(ops[i + 1..], false, keep)
    ensures ops[i].Equal? ==>
      && j > i
      && Unified(ops[i..], i == 0, keep) ==
         RunView(ops[i..j], i == 0, j == |ops|, keep) + Unified(ops[j..], false, keep)
  {
    hide RunView, FullRow, EqualRun;
    var rest := ops[i..];
    assert rest[0] == ops[i] && rest[1..] == ops[i + 1..];
    assert rest[..j - i] == ops[i..j] && rest[j - i..] == ops[j..];
  }

  method EmitChange(op: Op) returns (out: View)
    requires !op.Equal?
    ensures out == Shown(FullRow(op))
  {
    out := Shown(if op.Changed? then Row(ChangedLine, op.right, op.rightN)
                 else if op.Added? then Row(AddedLine, op.right, op.rightN)
                 else Row(RemovedLine, op.left, op.leftN));
  }

  /** One turn of the loop: the rows it pushes and where it goes next. */
  method EmitNext(ops: seq<Op>, i: nat, keep: Keep) returns (rows: seq<View>, next: nat)
    requires i < |ops|
    ensures i < next <= |ops|
    ensures Unified(ops[i..], i == 0, keep) == rows + Unified(ops[next..], false, keep)
  {
    hide Unified, RunView, FullRow, EqualRun;
    var j := EqualEnd(ops, i);
    UnifiedAt(ops, i, j, keep);
    if !ops[i].Equal? {
      var row := EmitChange(ops[i]);
      rows, next := [row], i + 1;
    } else {
      rows := EmitRun(ops[i..j], i == 0, j == |ops|, keep);
      next := j;
    }
  }

  lemma OfNothing(first: bool, keep: Keep)
    ensures Unified([], first, keep) == [] && Collapses([], FullView([]))
  {
  }

  method UnifiedLines(ops: seq<Op>, keep: Keep) returns (out: seq<View>)
    ensures out == Unified(ops, true, keep)
  {
    hide Unified;
    out := [];
    var i := 0;
    assert ops[0..] == ops;
    while i < |ops|
      invariant 0 <= i <= |ops|
      invariant out + Unified(ops[i..], i == 0, keep) == Unified(ops, true, keep)
    {
      var rows, next := EmitNext(ops, i, keep);
      out, i := out + rows, next;
    }
    assert ops[i..] == [];
    OfNothing(i == 0, keep);
  }

  // ----- What a collapsed view means

  /** The view is the full list of rows with some blocks of context rows, and
      nothing else, replaced by their length. */
  ghost predicate Collapses(view: seq<View>, rows: seq<Row>) {
    if view == [] then rows == []
    else match view[0]
      case Shown(row) => rows != [] && rows[0] == row && Collapses(view[1..], rows[1..])
      case Hidden(n) =>
        && 0 < n <= |rows|
        && (forall k | 0 <= k < n :: rows[k].kind == Context)
        && Collapses(view[1..], rows[n..])
  }

  lemma {:induction false} CollapsesConcat(v: seq<View>, r: seq<Row>, w: seq<View>, s: seq<Row>)
    requires Collapses(v, r) && Collapses(w, s)
    ensures Collapses(v + w, r + s)
  {
    if v == [] {
      assert v + w == w && r + s == s;
    } else {
      var n := if v[0].Shown? then 1 else v[0].count;
      CollapsesConcat(v[1..], r[n..], w, s);
      assert (v + w)[1..] == v[1..] + w && (r + s)[n..] == r[n..] + s;
    }
  }

  lemma {:induction false} ShowCollapses(ops: seq<Op>)
    ensures Collapses(Show(ops), FullView(ops))
  {
    if ops != [] {
      ShowCollapses(ops[1..]);
      assert Show(ops)[1..] == Show(ops[1..]) && FullView(ops)[1..] == FullView(ops[1..]);
    }
  }

  lemma GapCollapses(gap: seq<View>, run: seq<Op>)
    requires if run == [] then gap == [] else gap == [Hidden(|run|)]
    requires forall k | 0 <= k < |run| :: run[k].Equal?
    ensures Collapses(gap, FullView(run))
  {
    if run != [] {
      assert Collapses(gap[1..], FullView(run)[|run|..]);
    }
  }

  lemma FullViewConcat(x: seq<Op>, y: seq<Op>)
    ensures FullView(x + y) == FullView(x) + FullView(y)
  {
    hide FullRow;
  }

  lemma HeadBeforeTail(length: nat, first: bool, last: bool, n: nat)
    ensures HeadLength(length, first, n) <= TailStart(length, last, n)
  {
  }

  lemma RunCollapses(run: seq<Op>, first: bool, last: bool, keep: Keep)
    requires forall k | 0 <= k < |run| :: run[k].Equal?
    ensures Collapses(RunView(run, first, last, keep), FullView(run))
  {
    hide Collapses, FullRow, FullView, Show, HeadLength, TailStart;
    if keep.Everything? {
      ShowCollapses(run);
    } else {
      var h, t := HeadLength(|run|, first, keep.n), TailStart(|run|, last, keep.n);
      HeadBeforeTail(|run|, first, last, keep.n);
      var head, middle, tail := run[..h], run[h..t], run[t..];
      var gap := if h < t then [Hidden(t - h)] else [];
      ShowCollapses(head);
      GapCollapses(gap, middle);
      ShowCollapses(tail);
      CollapsesConcat(Show(head), FullView(head), gap, FullView(middle));
      CollapsesConcat(Show(head) + gap, FullView(head) + FullView(middle), Show(tail), FullView(tail));
      FullViewConcat(head, middle);
      FullViewConcat(head + middle, tail);
      assert head + middle + tail == run;
    }
  }

  /** The view is the full list of rows with blocks of context rows replaced by their length. */
  lemma {:induction false} UnifiedCollapses(ops: seq<Op>, first: bool, keep: Keep)
    ensures Collapses(Unified(ops, first, keep), FullView(ops))
  {
    hide RunView, FullRow, Collapses, FullView, Show;
    if ops == [] {
      OfNothing(first, keep);
    } else {
      var e := if ops[0].Equal? then EqualRun(ops) else 1;
      var view, rest := if ops[0].Equal? then RunView(ops[..e], first, e == |ops|, keep) else Show(ops[..1]),
                        Unified(ops[e..], false, keep);
      if ops[0].Equal? {
        RunCollapses(ops[..e], first, e == |ops|, keep);
      } else {
        ShowCollapses(ops[..1]);
        ShowFirst(ops);
      }
      UnifiedCollapses(ops[e..], false, keep);
      CollapsesConcat(view, FullView(ops[..e]), rest, FullView(ops[e..]));
      FullViewConcat(ops[..e], ops[e..]);
      assert ops[..e] + ops[e..] == ops;
    }
  }

  lemma ShowFirst(ops: seq<Op>)
    requires ops != []
    ensures Show(ops[..0]) == [] && Show(ops[..1]) == [Shown(FullRow(ops[0]))]
  {
  }

  /** Context rows shown plus context rows counted as hidden. */
  function ContextTotal(view: seq<View>): nat {
    if view == [] then 0
    else (match view[0]
          case Shown(row) => if row.kind == Context then 1 else 0
          case Hidden(n) => n) + ContextTotal(view[1..])
  }

  function Changes(view: seq<View>): seq<Row> {
    if view == [] then []
    else if view[0].Shown? && view[0].row.kind != Context then [view[0].row] + Changes(view[1..])
    else Changes(view[1..])
  }

  function ChangeRows(ops: seq<Op>): seq<Row> {
    if ops == [] then []
    else if ops[0].Equal? then ChangeRows(ops[1..])
    else [FullRow(ops[0])] + ChangeRows(ops[1..])
  }

  lemma {:induction false} SkipEqual(ops: seq<Op>, n: nat)
    requires n <= |ops| && forall k | 0 <= k < n :: ops[k].Equal?
    ensures ChangeRows(ops) == ChangeRows(ops[n..]) && CountEqual(ops) == n + CountEqual(ops[n..])
    decreases n
  {
    if n > 0 {
      SkipEqual(ops[1..], n - 1);
      assert ops[1..][n - 1..] == ops[n..];
    } else {
      assert ops[0..] == ops;
    }
  }

  lemma {:induction false} CollapsedCounts(view: seq<View>, ops: seq<Op>)
    requires Collapses(view, FullView(ops))
    ensures ContextTotal(view) == CountEqual(ops)
    ensures Changes(view) == ChangeRows(ops)
    decreases |view|
  {
    if view != [] {
      var n := if view[0].Shown? then 1 else view[0].count;
      assert FullView(ops)[n..] == FullView(ops[n..]);
      CollapsedCounts(view[1..], ops[n..]);
      if view[0].Hidden? {
        forall k | 0 <= k < n ensures ops[k].Equal? {
          assert FullView(ops)[k].kind == Context;
        }
        SkipEqual(ops, n);
      }
    } else {
      assert ops == [];
    }
  }

  /** The promise of the view, for every list of operations and every context. */
  lemma UnifiedConserves(ops: seq<Op>, keep: Keep)
    ensures Changes(Unified(ops, true, keep)) == ChangeRows(ops)
    ensures ContextTotal(Unified(ops, true, keep)) == CountEqual(ops)
  {
    UnifiedCollapses(ops, true, keep);
    CollapsedCounts(Unified(ops, true, keep), ops);
  }

  /** How many of the equal lines just before the first change are shown. It is
      the promised min(n, length) exactly when n is 0 or the run has at least
      2n lines; otherwise the leading run is trimmed harder. */
  lemma LeadingContext(run: seq<Op>, rest: seq<Op>, n: nat)
    requires run != [] && rest != [] && !rest[0].Equal?
    requires forall k | 0 <= k < |run| :: run[k].Equal?
    ensures var kept := |run| - TailStart(|run|, false, n);
      && Unified(run + rest, true, Around(n)) ==
         (if kept < |run| then [Hidden(|run| - kept)] else []) + Show(run[|run| - kept..]) +
         Unified(rest, false, Around(n))
      && (kept == Min(n, |run|) <==> n == 0 || 2 * n <= |run|)
  {
    hide EqualRun, Show, HeadLength, TailStart;
    ShowFirst(run);
    var ops := run + rest;
    LeadingEqual(run, rest);
    assert ops[..|run|] == run && ops[|run|..] == rest;
    LeadingTail(|run|, n);
  }

  /** The first run shows no head, and its tail is short unless it has 2n lines. */
  lemma LeadingTail(length: nat, n: nat)
    requires length > 0
    ensures HeadLength(length, true, n) == 0
    ensures length - TailStart(length, false, n) == Min(n, length) <==> n == 0 || 2 * n <= length
  {
  }

  lemma {:induction false} LeadingEqual(run: seq<Op>, rest: seq<Op>)
    requires forall k | 0 <= k < |run| :: run[k].Equal?
    requires rest != [] ==> !rest[0].Equal?
    ensures EqualRun(run + rest) == |run|
  {
    if run == [] {
      assert run + rest == rest;
    } else {
      LeadingEqual(run[1..], rest);
      assert (run + rest)[1..] == run[1..] + rest;
    }
  }
}
