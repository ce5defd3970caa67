/** The line alignment behind the spec history screens: a longest-common-subsequence table and a
    greedy walk over it. Documents are lists of lines. */
module LineDiff {
  import opened Common

  datatype Op =
    | Equal(left: string, right: string, leftN: nat, rightN: nat)
    | Added(right: string, rightN: nat)
    | Removed(left: string, leftN: nat)
    | Changed(left: string, right: string, leftN: nat, rightN: nat)

  /** Above this many cells the walk is replaced by a whole-document replace. */
  const MAX_CELLS: nat := 4_000_000

  newtype uint32 = x: int | 0 <= x < 0x1_0000_0000

  /** A numbered line of one document. */
  datatype Line = Line(text: string, n: nat)

  /** The lines from index k on, numbered from 1 at the start of the document. */
  function NumberedFrom(doc: seq<string>, k: nat): seq<Line>
    requires k <= |doc|
    decreases |doc| - k
  {
    if k == |doc| then [] else [Line(doc[k], k + 1)] + NumberedFrom(doc, k + 1)
  }

  function Numbered(doc: seq<string>): seq<Line> { NumberedFrom(doc, 0) }

  lemma {:induction false} NumberedAt(doc: seq<string>, k: nat, i: nat)
    requires k <= i < |doc|
    ensures |NumberedFrom(doc, k)| == |doc| - k && NumberedFrom(doc, k)[i - k] == Line(doc[i], i + 1)
    decreases |doc| - k
  {
    if k < i {
      NumberedAt(doc, k + 1, i);
    } else if k + 1 < |doc| {
      NumberedAt(doc, k + 1, k + 1);
    }
  }

  function Texts(lines: seq<Line>): seq<string> {
    seq(|lines|, i requires 0 <= i < |lines| => lines[i].text)
  }

  /** Without its numbers a numbered document is the document. */
  lemma NumberedTexts(doc: seq<string>)
    ensures Texts(Numbered(doc)) == doc && |Numbered(doc)| == |doc|
  {
    assert Numbered([]) == [];
    hide NumberedFrom;
    if doc != [] {
      forall i | 0 <= i < |doc| ensures |Numbered(doc)| == |doc| && Texts(Numbered(doc))[i] == doc[i] {
        NumberedAt(doc, 0, i);
      }
      NumberedAt(doc, 0, 0);
    }
  }

  // ----- What an operation list says about the two documents

  datatype Side = Left | Right

  predicate Shows(side: Side, op: Op) {
    if side.Left? then !op.Added? else !op.Removed?
  }

  function LineOf(side: Side, op: Op): Line
    requires Shows(side, op)
  {
    if side.Left? then Line(op.left, op.leftN) else Line(op.right, op.rightN)
  }

  /** All the lines of one side, in order. */
  function Lines(side: Side, ops: seq<Op>): seq<Line> {
    if ops == [] then []
    else if Shows(side, ops[0]) then [LineOf(side, ops[0])] + Lines(side, ops[1..])
    else Lines(side, ops[1..])
  }

  /** The lines the diff keeps: the text of its equal operations, in order. */
  function Kept(ops: seq<Op>): seq<string> {
    if ops == [] then []
    else if ops[0].Equal? then [ops[0].left] + Kept(ops[1..])
    else Kept(ops[1..])
  }

  /** A raw alignment: equal operations pair equal lines and nothing is paired up yet. */
  ghost predicate Honest(ops: seq<Op>) {
    forall k | 0 <= k < |ops| :: !ops[k].Changed? && (ops[k].Equal? ==> ops[k].left == ops[k].right)
  }

  // ----- Subsequences, and the function the table holds

  ghost predicate Subsequence(s: seq<string>, t: seq<string>) {
    s == [] ||
    (t != [] && (Subsequence(s, t[1..]) || (s[0] == t[0] && Subsequence(s[1..], t[1..]))))
  }

  /** Length of a longest common subsequence, by the recurrence of the table. */
  function Lcs(a: seq<string>, b: seq<string>): (r: nat)
    ensures r <= |a| && r <= |b|
    decreases |a| + |b|
  {
    if a == [] || b == [] then 0
    else if a[0] == b[0] then Lcs(a[1..], b[1..]) + 1
    else Max(Lcs(a[1..], b), Lcs(a, b[1..]))
  }

  lemma {:induction false} SubsequenceTail(s: seq<string>, t: seq<string>)
    requires s != [] && Subsequence(s, t)
    ensures t != [] && Subsequence(s[1..], t[1..]) && Subsequence(s[1..], t)
    decreases |t|
  {
    if Subsequence(s, t[1..]) {
      SubsequenceTail(s, t[1..]);
    }
  }

  /** No common subsequence is longer than the recurrence says. */
  lemma {:induction false} LcsIsUpperBound(s: seq<string>, a: seq<string>, b: seq<string>)
    requires Subsequence(s, a) && Subsequence(s, b)
    ensures |s| <= Lcs(a, b)
    decreases |a| + |b|
  {
    if s != [] {
      SubsequenceTail(s, a);
      SubsequenceTail(s, b);
      if a[0] == b[0] {
        LcsIsUpperBound(s[1..], a[1..], b[1..]);
      } else if s[0] == a[0] {
        LcsIsUpperBound(s, a, b[1..]);
      } else {
        LcsIsUpperBound(s, a[1..], b);
      }
    }
  }

  // ----- alignLines

  /** The walk from position (i, j): keep a common line, otherwise drop from the
      side whose remainder keeps at least as much, preferring the left. */
  function AlignFrom(a: seq<string>, b: seq<string>, i: nat, j: nat): seq<Op>
    requires i <= |a| && j <= |b|
    decreases |a| - i + |b| - j
  {
    if i < |a| && j < |b| then
      if a[i] == b[j] then [Equal(a[i], b[j], i + 1, j + 1)] + AlignFrom(a, b, i + 1, j + 1)
      else if Lcs(a[i + 1..], b[j..]) >= Lcs(a[i..], b[j + 1..]) then
        [Removed(a[i], i + 1)] + AlignFrom(a, b, i + 1, j)
      else [Added(b[j], j + 1)] + AlignFrom(a, b, i, j + 1)
    else if i < |a| then [Removed(a[i], i + 1)] + AlignFrom(a, b, i + 1, j)
    else if j < |b| then [Added(b[j], j + 1)] + AlignFrom(a, b, i, j + 1)
    else []
  }

  function RemoveFrom(a: seq<string>, i: nat): seq<Op>
    requires i <= |a|
    decreases |a| - i
  {
    if i == |a| then [] else [Removed(a[i], i + 1)] + RemoveFrom(a, i + 1)
  }

  function AddFrom(b: seq<string>, j: nat): seq<Op>
    requires j <= |b|
    decreases |b| - j
  {
    if j == |b| then [] else [Added(b[j], j + 1)] + AddFrom(b, j + 1)
  }

  function Align(a: seq<string>, b: seq<string>): seq<Op> {
    if |a| * |b| > MAX_CELLS then RemoveFrom(a, 0) + AddFrom(b, 0) else AlignFrom(a, b, 0, 0)
  }

  /** Row-major position of cell (i, j) in a table of width w. */
  function Cell(i: nat, j: nat, w: nat): nat { i * w + j }

  lemma CellsDiffer(i: nat, j: nat, p: nat, q: nat, w: nat)
    requires j < w && q < w && (i != p || j != q)
    ensures Cell(i, j, w) != Cell(p, q, w)
  {
    if i < p {
      assert i * w + w == (i + 1) * w <= p * w;
    } else if p < i {
      assert p * w + w == (p + 1) * w <= i * w;
    }
  }

  lemma CellInTable(i: nat, j: nat, n: nat, w: nat)
    requires i <= n && j < w
    ensures Cell(i, j, w) < (n + 1) * w
  {
    assert i * w <= n * w;
    assert (n + 1) * w == n * w + w;
  }

  /** Cells of the rows below i, and of row i from column j on, hold their Lcs. */
  ghost predicate Filled(table: array<uint32>, a: seq<string>, b: seq<string>, i: int, j: int)
    reads table
  {
    var w := |b| + 1;
    table.Length == (|a| + 1) * w &&
    forall p: nat, q: nat {:trigger Cell(p, q, w)} ::
      p <= |a| && q <= |b| && (p > i || (p == i && q >= j)) ==>
        Cell(p, q, w) < table.Length && table[Cell(p, q, w)] as int == Lcs(a[p..], b[q..])
  }

  /** The last row and the last column are zero from the start. */
  ghost predicate Border(table: array<uint32>, a: seq<string>, b: seq<string>, i: int)
    reads table
  {
    var w := |b| + 1;
    table.Length == (|a| + 1) * w &&
    forall p: nat {:trigger Cell(p, |b|, w)} ::
      p <= i && p <= |a| ==> Cell(p, |b|, w) < table.Length && table[Cell(p, |b|, w)] == 0
  }

  /** The value of cell (i, j), read off its three neighbours; it fits 32 bits. */
  method CellValue(table: array<uint32>, a: seq<string>, b: seq<string>, i: nat, j: nat) returns (v: uint32)
    requires |a| * |b| <= MAX_CELLS && i < |a| && j < |b|
    requires Filled(table, a, b, i, j + 1)
    ensures v as int == Lcs(a[i..], b[j..])
  {
    var w := |b| + 1;
    assert |a[i + 1..]| <= |a| * |b|;
    assert a[i..][1..] == a[i + 1..] && b[j..][1..] == b[j + 1..];
    var below, right, diagonal := Cell(i + 1, j, w), Cell(i, j + 1, w), Cell(i + 1, j + 1, w);
    v := if a[i] == b[j] then table[diagonal] + 1
         else if table[below] < table[right] then table[right]
         else table[below];
  }

  method FillCell(table: array<uint32>, a: seq<string>, b: seq<string>, i: nat, j: nat)
    requires |a| * |b| <= MAX_CELLS && i < |a| && j < |b|
    requires Filled(table, a, b, i, j + 1) && Border(table, a, b, i - 1)
    modifies table
    ensures Filled(table, a, b, i, j) && Border(table, a, b, i - 1)
  {
    var w := |b| + 1;
    var v := CellValue(table, a, b, i, j);
    CellInTable(i, j, |a|, w);
    forall p: nat, q: nat | p <= |a| && q <= |b| && (p != i || q != j)
      ensures Cell(p, q, w) != Cell(i, j, w)
    {
      CellsDiffer(i, j, p, q, w);
    }
    table[Cell(i, j, w)] := v;
  }

  /** Before row i: its last cell is one of the zeros of the border. */
  lemma RowStarts(table: array<uint32>, a: seq<string>, b: seq<string>, i: nat)
    requires i < |a| && Filled(table, a, b, i, |b| + 1) && Border(table, a, b, i)
    ensures Filled(table, a, b, i, |b|) && Border(table, a, b, i - 1)
  {
    assert Lcs(a[i..], b[|b|..]) == 0;
  }

  lemma RowIsDone(table: array<uint32>, a: seq<string>, b: seq<string>, i: nat)
    requires Filled(table, a, b, i, 0)
    ensures Filled(table, a, b, i - 1, |b| + 1)
  {
    hide Lcs, Cell;
  }

  method NewTable(a: seq<string>, b: seq<string>) returns (table: array<uint32>)
    ensures fresh(table) && Filled(table, a, b, |a| - 1, |b| + 1) && Border(table, a, b, |a| - 1)
  {
    var n, w := |a|, |b| + 1;
    table := new uint32[(n + 1) * w](_ => 0);
    forall p: nat, q: nat | p <= n && q < w ensures Cell(p, q, w) < table.Length {
      CellInTable(p, q, n, w);
    }
    hide Cell;
  }

  method FillRow(table: array<uint32>, a: seq<string>, b: seq<string>, i: nat)
    requires |a| * |b| <= MAX_CELLS && i < |a|
    requires Filled(table, a, b, i, |b| + 1) && Border(table, a, b, i)
    modifies table
    ensures Filled(table, a, b, i - 1, |b| + 1) && Border(table, a, b, i - 1)
  {
    hide Filled, Border;
    RowStarts(table, a, b, i);
    var j := |b| - 1;
    while j >= 0
      invariant -1 <= j < |b|
      invariant Filled(table, a, b, i, j + 1) && Border(table, a, b, i - 1)
    {
      FillCell(table, a, b, i, j);
      j := j - 1;
    }
    RowIsDone(table, a, b, i);
  }

  method FillTable(a: seq<string>, b: seq<string>) returns (table: array<uint32>)
    requires |a| * |b| <= MAX_CELLS
    ensures fresh(table) && Filled(table, a, b, -1, 0)
  {
    hide Border, Lcs, Cell;
    table := NewTable(a, b);
    var i := |a| - 1;
    while i >= 0
      invariant -1 <= i < |a|
      invariant Filled(table, a, b, i, |b| + 1) && Border(table, a, b, i)
    {
      FillRow(table, a, b, i);
      i := i - 1;
    }
  }

  method ReplaceAll(a: seq<string>, b: seq<string>) returns (ops: seq<Op>)
    ensures ops == RemoveFrom(a, 0) + AddFrom(b, 0)
  {
    ops := [];
    for i := 0 to |a|
      invariant ops + RemoveFrom(a, i) == RemoveFrom(a, 0)
    {
      ops := ops + [Removed(a[i], i + 1)];
    }
    for j := 0 to |b|
      invariant ops + AddFrom(b, j) == RemoveFrom(a, 0) + AddFrom(b, 0)
    {
      ops := ops + [Added(b[j], j + 1)];
    }
  }

  /** Whether the table prefers dropping the left line at (i, j). */
  method PrefersRemoval(table: array<uint32>, a: seq<string>, b: seq<string>, i: nat, j: nat)
    returns (r: bool)
    requires Filled(table, a, b, -1, 0) && i < |a| && j < |b|
    ensures r == (Lcs(a[i + 1..], b[j..]) >= Lcs(a[i..], b[j + 1..]))
  {
    var w := |b| + 1;
    r := table[Cell(i + 1, j, w)] >= table[Cell(i, j + 1, w)];
  }

  /** One turn of the walk: the operation it emits and where it goes next. */
  method WalkStep(table: array<uint32>, a: seq<string>, b: seq<string>, i: nat, j: nat)
    returns (op: Op, i': nat, j': nat)
    requires Filled(table, a, b, -1, 0) && i < |a| && j < |b|
    ensures i <= i' <= |a| && j <= j' <= |b| && i + j < i' + j'
    ensures AlignFrom(a, b, i, j) == [op] + AlignFrom(a, b, i', j')
  {
    var removal := PrefersRemoval(table, a, b, i, j);
    if a[i] == b[j] {
      op, i', j' := Equal(a[i], b[j], i + 1, j + 1), i + 1, j + 1;
    } else if removal {
      op, i', j' := Removed(a[i], i + 1), i + 1, j;
    } else {
      op, i', j' := Added(b[j], j + 1), i, j + 1;
    }
  }

  /** The walk while both documents have lines left. */
  method WalkTable(table: array<uint32>, a: seq<string>, b: seq<string>)
    returns (ops: seq<Op>, i: nat, j: nat)
    requires Filled(table, a, b, -1, 0)
    ensures i <= |a| && j <= |b| && (i == |a| || j == |b|)
    ensures ops + AlignFrom(a, b, i, j) == AlignFrom(a, b, 0, 0)
  {
    ops, i, j := [], 0, 0;
    while i < |a| && j < |b|
      invariant i <= |a| && j <= |b|
      invariant ops + AlignFrom(a, b, i, j) == AlignFrom(a, b, 0, 0)
      decreases |a| - i + |b| - j
    {
      var op, i', j' := WalkStep(table, a, b, i, j);
      ops, i, j := ops + [op], i', j';
    }
  }

  method AlignLines(a: seq<string>, b: seq<string>) returns (ops: seq<Op>)
    ensures ops == Align(a, b)
  {
    if |a| * |b| > MAX_CELLS {
      ops := ReplaceAll(a, b);
      return;
    }
    var table := FillTable(a, b);
    var i, j;
    ops, i, j := WalkTable(table, a, b);
    while i < |a|
      invariant i <= |a| && j <= |b| && (i == |a| || j == |b|)
      invariant ops + AlignFrom(a, b, i, j) == AlignFrom(a, b, 0, 0)
    {
      ops := ops + [Removed(a[i], i + 1)];
      i := i + 1;
    }
    while j < |b|
      invariant i == |a| && j <= |b|
      invariant ops + AlignFrom(a, b, i, j) == AlignFrom(a, b, 0, 0)
    {
      ops := ops + [Added(b[j], j + 1)];
      j := j + 1;
    }
  }

  // ----- What the alignment guarantees

  lemma {:induction false} LinesConcat(side: Side, x: seq<Op>, y: seq<Op>)
    ensures Lines(side, x + y) == Lines(side, x) + Lines(side, y)
  {
    hide Shows, LineOf;
    if x == [] {
      assert x + y == y;
    } else {
      LinesConcat(side, x[1..], y);
      assert (x + y)[1..] == x[1..] + y && (x + y)[0] == x[0];
    }
  }

  lemma {:induction false} KeptConcat(x: seq<Op>, y: seq<Op>)
    ensures Kept(x + y) == Kept(x) + Kept(y)
  {
    if x == [] {
      assert x + y == y;
    } else {
      KeptConcat(x[1..], y);
      assert (x + y)[1..] == x[1..] + y;
    }
  }

  function Document(side: Side, a: seq<string>, b: seq<string>): seq<string> {
    if side.Left? then a else b
  }

  lemma {:induction false} AlignFromLines(side: Side, a: seq<string>, b: seq<string>, i: nat, j: nat)
    requires i <= |a| && j <= |b|
    ensures Lines(side, AlignFrom(a, b, i, j)) ==
            NumberedFrom(Document(side, a, b), if side.Left? then i else j)
    decreases |a| - i + |b| - j
  {
    if i < |a| || j < |b| {
      var ops := AlignFrom(a, b, i, j);
      var i', j' := if ops[0].Added? then i else i + 1, if ops[0].Removed? then j else j + 1;
      assert ops == [ops[0]] + AlignFrom(a, b, i', j');
      assert ops[1..] == AlignFrom(a, b, i', j');
      AlignFromLines(side, a, b, i', j');
    }
  }

  lemma {:induction false} AlignFromKeeps(a: seq<string>, b: seq<string>, i: nat, j: nat)
    requires i <= |a| && j <= |b|
    ensures |Kept(AlignFrom(a, b, i, j))| == Lcs(a[i..], b[j..])
    decreases |a| - i + |b| - j
  {
    if i < |a| { assert a[i..][1..] == a[i + 1..]; }
    if j < |b| { assert b[j..][1..] == b[j + 1..]; }
    if i < |a| && j < |b| && a[i] == b[j] {
      AlignFromKeeps(a, b, i + 1, j + 1);
    } else if i < |a| && (j == |b| || Lcs(a[i + 1..], b[j..]) >= Lcs(a[i..], b[j + 1..])) {
      AlignFromKeeps(a, b, i + 1, j);
    } else if j < |b| {
      AlignFromKeeps(a, b, i, j + 1);
    }
  }

  lemma {:induction false} AlignFromIsHonest(a: seq<string>, b: seq<string>, i: nat, j: nat)
    requires i <= |a| && j <= |b|
    ensures Honest(AlignFrom(a, b, i, j))
    decreases |a| - i + |b| - j
  {
    if i < |a| || j < |b| {
      var ops := AlignFrom(a, b, i, j);
      var i', j' := if ops[0].Added? then i else i + 1, if ops[0].Removed? then j else j + 1;
      assert ops[1..] == AlignFrom(a, b, i', j');
      AlignFromIsHonest(a, b, i', j');
    }
  }

  lemma LinesOfNothing(side: Side)
    ensures Lines(side, []) == [] && Kept([]) == []
  {
  }

  lemma LinesCons(side: Side, op: Op, ops: seq<Op>)
    ensures Lines(side, [op] + ops) == (if Shows(side, op) then [LineOf(side, op)] else []) + Lines(side, ops)
    ensures Kept([op] + ops) == (if op.Equal? then [op.left] else []) + Kept(ops)
  {
    assert ([op] + ops)[1..] == ops;
  }

  lemma {:induction false} RemoveFromFacts(side: Side, a: seq<string>, i: nat)
    requires i <= |a|
    ensures var ops := RemoveFrom(a, i);
      Lines(side, ops) == (if side.Left? then NumberedFrom(a, i) else []) && Kept(ops) == []
      && forall k | 0 <= k < |ops| :: ops[k].Removed?
    decreases |a| - i
  {
    hide Lines, Kept;
    LinesOfNothing(side);
    if i < |a| {
      RemoveFromFacts(side, a, i + 1);
      LinesCons(side, Removed(a[i], i + 1), RemoveFrom(a, i + 1));
    }
  }

  lemma {:induction false} AddFromFacts(side: Side, b: seq<string>, j: nat)
    requires j <= |b|
    ensures var ops := AddFrom(b, j);
      Lines(side, ops) == (if side.Left? then [] else NumberedFrom(b, j)) && Kept(ops) == []
      && forall k | 0 <= k < |ops| :: ops[k].Added?
    decreases |b| - j
  {
    hide Lines, Kept;
    LinesOfNothing(side);
    if j < |b| {
      AddFromFacts(side, b, j + 1);
      LinesCons(side, Added(b[j], j + 1), AddFrom(b, j + 1));
    }
  }

  /** Both branches: reading one side of the operations gives back that document,
      lines numbered 1, 2, 3, ... in order. */
  lemma AlignReconstructs(side: Side, a: seq<string>, b: seq<string>)
    ensures Lines(side, Align(a, b)) == Numbered(Document(side, a, b))
    ensures Honest(Align(a, b))
  {
    if |a| * |b| > MAX_CELLS {
      RemoveFromFacts(side, a, 0);
      AddFromFacts(side, b, 0);
      LinesConcat(side, RemoveFrom(a, 0), AddFrom(b, 0));
    } else {
      AlignFromLines(side, a, b, 0, 0);
      AlignFromIsHonest(a, b, 0, 0);
    }
  }

  lemma {:induction false} KeptIsSubsequence(side: Side, ops: seq<Op>)
    requires Honest(ops)
    ensures Subsequence(Kept(ops), Texts(Lines(side, ops)))
  {
    if ops != [] {
      var all, rest := Texts(Lines(side, ops)), Texts(Lines(side, ops[1..]));
      KeptIsSubsequence(side, ops[1..]);
      assert if Shows(side, ops[0]) then all[1..] == rest else all == rest;
      assert Kept(ops) == Kept(ops[1..]) || (ops[0].Equal? && Kept(ops)[1..] == Kept(ops[1..]));
    }
  }

  /** Within the cell limit the kept lines are a longest common subsequence of
      the two documents; above it nothing is kept. */
  lemma AlignIsOptimal(a: seq<string>, b: seq<string>)
    ensures var kept := Kept(Align(a, b));
      && Subsequence(kept, a) && Subsequence(kept, b)
      && (|a| * |b| <= MAX_CELLS ==>
            forall s :: Subsequence(s, a) && Subsequence(s, b) ==> |s| <= |kept|)
      && (|a| * |b| > MAX_CELLS ==> kept == [])
  {
    var ops := Align(a, b);
    AlignReconstructs(Left, a, b);
    AlignReconstructs(Right, a, b);
    KeptIsSubsequence(Left, ops);
    KeptIsSubsequence(Right, ops);
    NumberedTexts(a);
    NumberedTexts(b);
    if |a| * |b| > MAX_CELLS {
      RemoveFromFacts(Left, a, 0);
      AddFromFacts(Left, b, 0);
      KeptConcat(RemoveFrom(a, 0), AddFrom(b, 0));
    } else {
      AlignFromKeeps(a, b, 0, 0);
      assert a[0..] == a && b[0..] == b;
      forall s | Subsequence(s, a) && Subsequence(s, b) ensures |s| <= |Kept(ops)| {
        LcsIsUpperBound(s, a, b);
      }
    }
  }
}
