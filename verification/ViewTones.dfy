/** The tones of the two views, and how much context the unified view keeps. */
module ViewTones {
  import opened Common
  import opened LineDiff
  import opened DiffViews
  import opened UnifiedView

  function Only(rows: seq<Row>, kind: Kind): seq<Row> {
    if rows == [] then [] else (if rows[0].kind == kind then [rows[0]] else []) + Only(rows[1..], kind)
  }

  function Without(rows: seq<Row>, kind: Kind): seq<Row> {
    if rows == [] then [] else (if rows[0].kind == kind then [] else [rows[0]]) + Without(rows[1..], kind)
  }

  function RowTexts(rows: seq<Row>): seq<string> {
    seq(|rows|, i requires 0 <= i < |rows| => rows[i].text)
  }

  lemma Cons(x: Row, rows: seq<Row>, kind: Kind)
    ensures Only([x] + rows, kind) == (if x.kind == kind then [x] else []) + Only(rows, kind)
    ensures Without([x] + rows, kind) == (if x.kind == kind then [] else [x]) + Without(rows, kind)
    ensures RowTexts([x] + rows) == [x.text] + RowTexts(rows)
  {
    assert ([x] + rows)[1..] == rows;
  }

  lemma PaneUnfold(side: Side, ops: seq<Op>)
    requires ops != []
    ensures Pane(side, ops) == (if Shows(side, ops[0]) then [RowOf(side, ops[0])] else []) + Pane(side, ops[1..])
  {
    hide RowOf;
  }

  /** The left pane shows no added line and the right one no removed line; the other tones are as many as
      the summary counts. */
  lemma {:induction false} PaneTones(side: Side, ops: seq<Op>)
    ensures var rows := Pane(side, ops);
      && Only(rows, if side.Left? then AddedLine else RemovedLine) == []
      && |Only(rows, ChangedLine)| == CountChanged(ops)
      && |Only(rows, if side.Left? then RemovedLine else AddedLine)| ==
         (if side.Left? then CountRemoved(ops) else CountAdded(ops))
  {
    if ops != [] {
      PaneTones(side, ops[1..]);
      PaneUnfold(side, ops);
      hide Pane, Only, RowTexts;
      if Shows(side, ops[0]) {
        var x, rows := RowOf(side, ops[0]), Pane(side, ops[1..]);
        Cons(x, rows, AddedLine);
        Cons(x, rows, RemovedLine);
        Cons(x, rows, ChangedLine);
      }
    }
  }

  /** What is plain on either side is the kept text. */
  lemma {:induction false} PlainIsKept(side: Side, ops: seq<Op>)
    requires forall k | 0 <= k < |ops| :: ops[k].Equal? ==> ops[k].left == ops[k].right
    ensures RowTexts(Only(Pane(side, ops), Context)) == Kept(ops)
  {
    if ops == [] {
      assert RowTexts([]) == [];
    } else {
      PlainIsKept(side, ops[1..]);
      PaneUnfold(side, ops);
      hide Pane, Only, RowTexts;
      if Shows(side, ops[0]) {
        var x, rows := RowOf(side, ops[0]), Pane(side, ops[1..]);
        Cons(x, rows, Context);
        Cons(x, Only(rows, Context), Context);
      }
    }
  }

  /** Without its removed lines the unified view is the right pane; its removed lines are those of the left. */
  lemma {:induction false} FullViewShows(ops: seq<Op>)
    ensures Without(FullView(ops), RemovedLine) == Pane(Right, ops)
    ensures Only(FullView(ops), RemovedLine) == Only(Pane(Left, ops), RemovedLine)
  {
    if ops != [] {
      FullViewShows(ops[1..]);
      assert FullView(ops) == [FullRow(ops[0])] + FullView(ops[1..]);
      PaneUnfold(Left, ops);
      PaneUnfold(Right, ops);
      hide Pane, Only, Without, FullView;
      Cons(FullRow(ops[0]), FullView(ops[1..]), RemovedLine);
      Cons(RowOf(Left, if ops[0].Added? then Removed("", 0) else ops[0]), Pane(Left, ops[1..]), RemovedLine);
    }
  }

  // ----- Context

  /** With no limit nothing is hidden. */
  lemma {:induction false} EverythingIsShown(ops: seq<Op>, first: bool)
    ensures Unified(ops, first, Everything) == Show(ops)
    decreases |ops|
  {
    hide FullRow, EqualRun;
    if ops != [] {
      var e := if ops[0].Equal? then EqualRun(ops) else 1;
      if ops[0].Equal? { StartsRun(ops); }
      EverythingIsShown(ops[e..], false);
      ShowSplits(ops, e);
      if !ops[0].Equal? { ShowFirst(ops); }
    }
  }

  lemma StartsRun(ops: seq<Op>)
    requires ops != [] && ops[0].Equal?
    ensures EqualRun(ops) > 0
  {
  }

  lemma ShowSplits(ops: seq<Op>, e: nat)
    requires e <= |ops|
    ensures Show(ops) == Show(ops[..e]) + Show(ops[e..])
  {
    hide FullRow;
  }

  /** A run of equal lines between two changes keeps n lines at both ends, and is shown whole when it has no
      more than 2n. */
  lemma MiddleContext(run: seq<Op>, n: nat)
    ensures RunView(run, false, false, Around(n)) ==
      if |run| <= 2 * n then Show(run)
      else Show(run[..n]) + [Hidden(|run| - 2 * n)] + Show(run[|run| - n..])
  {
    hide FullRow;
    if |run| <= 2 * n {
      var h := HeadLength(|run|, false, n);
      assert TailStart(|run|, false, n) == h;
      ShowSplits(run, h);
    }
  }

  /** A run after the last change keeps its first n lines. */
  lemma TrailingContext(run: seq<Op>, n: nat)
    ensures RunView(run, false, true, Around(n)) ==
      if |run| <= n then Show(run) else Show(run[..n]) + [Hidden(|run| - n)]
  {
    hide FullRow;
    assert Show(run[|run|..]) == [];
    assert run[..|run|] == run;
  }
}
