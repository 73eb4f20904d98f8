/** The winning-line generator of utils/gameUtils.ts: for an N×N board and a
    run length K it lists, as flat-index sequences, every K-cell line — all
    rows, then all columns, then the ↘ diagonals, then the ↙ diagonals.

    The specification names each line by its first cell and its direction
    (a `Start`); `Lines(size, k)` is the generator's output written as the
    lines of the starts its four loop pairs visit, in visiting order. */
module WinningLines {
  import opened Board

  datatype Direction = Horizontal | Vertical | Diagonal | AntiDiagonal

  /** A line: its first cell (row r, column c) and its direction. */
  datatype Start = Start(dir: Direction, r: int, c: int)

  /** Number of iterations of a counting loop over [0, n). */
  function Span(n: int): nat
  {
    if n < 0 then 0 else n
  }

  /** Row of the i-th cell of line `s`. */
  function RowAt(s: Start, i: int): int
  {
    match s.dir
    case Horizontal => s.r
    case Vertical => s.r + i
    case Diagonal => s.r + i
    case AntiDiagonal => s.r + i
  }

  /** Column of the i-th cell of line `s`. */
  function ColAt(s: Start, i: int): int
  {
    match s.dir
    case Horizontal => s.c + i
    case Vertical => s.c
    case Diagonal => s.c + i
    case AntiDiagonal => s.c - i
  }

  /** The flat-index step between consecutive cells of a line. */
  function Step(size: int, d: Direction): int
  {
    match d
    case Horizontal => 1
    case Vertical => size
    case Diagonal => size + 1
    case AntiDiagonal => size - 1
  }

  /** Flat index of the i-th cell of line `s`, in the form the generator pushes it. */
  function CellOf(size: int, s: Start, i: int): int
  {
    match s.dir
    case Horizontal => s.r * size + s.c + i
    case Vertical => (s.r + i) * size + s.c
    case Diagonal => (s.r + i) * size + (s.c + i)
    case AntiDiagonal => (s.r + i) * size + (s.c - i)
  }

  /** The inARow flat indices of line `s` (none when inARow <= 0, since the
      innermost loop then does not run). */
  function Line(size: int, k: int, s: Start): seq<int>
  {
    seq(Span(k), i => CellOf(size, s, i))
  }

  /** The line the loop pair of direction `d` visits at outer iteration `o`
      and inner iteration `j` (for ↙ the inner column runs down from size-1). */
  function StartAt(size: int, d: Direction, o: int, j: int): Start
  {
    match d
    case Horizontal => Start(d, o, j)
    case Vertical => Start(d, j, o)
    case Diagonal => Start(d, o, j)
    case AntiDiagonal => Start(d, o, size - 1 - j)
  }

  /** Outer loop variable of a line's visit: the inverse of `StartAt`. */
  function OuterOf(s: Start): int
  {
    if s.dir == Vertical then s.c else s.r
  }

  /** Inner loop iteration of a line's visit: the inverse of `StartAt`. */
  function InnerOf(size: int, s: Start): int
  {
    match s.dir
    case Horizontal => s.c
    case Vertical => s.r
    case Diagonal => s.c
    case AntiDiagonal => size - 1 - s.c
  }

  /** Outer iterations: `r < size` / `c < size` for rows and columns,
      `r <= size - inARow` for both diagonals. */
  function OuterCount(size: int, k: int, d: Direction): nat
  {
    if d == Horizontal || d == Vertical then Span(size) else Span(size - k + 1)
  }

  /** Inner iterations, the same for all four directions. */
  function InnerCount(size: int, k: int): nat
  {
    Span(size - k + 1)
  }

  /** Lines visited in the first `j` inner iterations of outer iteration `o`. */
  function InnerRun(size: int, d: Direction, o: int, j: nat): seq<Start>
  {
    if j == 0 then [] else InnerRun(size, d, o, j - 1) + [StartAt(size, d, o, j - 1)]
  }

  /** Lines visited in the first `o` outer iterations of direction `d`. */
  function OuterRun(size: int, k: int, d: Direction, o: nat): seq<Start>
  {
    if o == 0 then [] else OuterRun(size, k, d, o - 1) + InnerRun(size, d, o - 1, InnerCount(size, k))
  }

  /** All lines of one direction, in loop order. */
  function Block(size: int, k: int, d: Direction): seq<Start>
  {
    OuterRun(size, k, d, OuterCount(size, k, d))
  }

  /** All lines in the generator's order: rows, columns, ↘, ↙. */
  function Starts(size: int, k: int): seq<Start>
  {
    Block(size, k, Horizontal) + Block(size, k, Vertical) + Block(size, k, Diagonal) + Block(size, k, AntiDiagonal)
  }

  function LinesOf(size: int, k: int, ss: seq<Start>): seq<seq<int>>
  {
    seq(|ss|, m requires 0 <= m < |ss| => Line(size, k, ss[m]))
  }

  /** The generator's result as a function of (size, inARow). */
  function Lines(size: int, k: int): seq<seq<int>>
  {
    LinesOf(size, k, Starts(size, k))
  }

  lemma LinesOfSnoc(size: int, k: int, ss: seq<Start>, s: Start)
    ensures LinesOf(size, k, ss + [s]) == LinesOf(size, k, ss) + [Line(size, k, s)]
  {
  }

  /** `generateWinningConditions(size, inARow)`: four blocks of nested
      counting loops, each pushing a line's indices one by one and then the
      line; a helper method per block below. */
  method GenerateWinningConditions(size: int, inARow: int) returns (conditions: seq<seq<int>>)
    ensures conditions == Lines(size, inARow)
  {
    var k := inARow;
    conditions := [];
    conditions := PushRows(size, inARow, conditions);
    conditions := PushColumns(size, inARow, conditions);
    conditions := PushDiagonals(size, inARow, conditions);
    conditions := PushAntiDiagonals(size, inARow, conditions);
    assert Starts(size, k) == Block(size, k, Horizontal) + Block(size, k, Vertical) + Block(size, k, Diagonal) + Block(size, k, AntiDiagonal);
    LinesOfConcat(size, k, Block(size, k, Horizontal), Block(size, k, Vertical));
    LinesOfConcat(size, k, Block(size, k, Horizontal) + Block(size, k, Vertical), Block(size, k, Diagonal));
    LinesOfConcat(size, k, Block(size, k, Horizontal) + Block(size, k, Vertical) + Block(size, k, Diagonal), Block(size, k, AntiDiagonal));
  }

  lemma LinesOfConcat(size: int, k: int, a: seq<Start>, b: seq<Start>)
    ensures LinesOf(size, k, a + b) == LinesOf(size, k, a) + LinesOf(size, k, b)
  {
  }

  /** Rows: `for r < size, for c <= size - inARow`, cells r*size + c + i. */
  method PushRows(size: int, inARow: int, prefix: seq<seq<int>>) returns (conditions: seq<seq<int>>)
    ensures conditions == prefix + LinesOf(size, inARow, Block(size, inARow, Horizontal))
  {
    var k := inARow;
    conditions := prefix;
    var r := 0;
    while r < size
      invariant 0 <= r <= Span(size)
      invariant conditions == prefix + LinesOf(size, k, OuterRun(size, k, Horizontal, r))
    {
      var c := 0;
      while c <= size - inARow
        invariant 0 <= c <= InnerCount(size, k)
        invariant conditions == prefix + LinesOf(size, k, OuterRun(size, k, Horizontal, r) + InnerRun(size, Horizontal, r, c))
        decreases size - inARow - c
      {
        var row := RowLine(size, inARow, r, c);
        LinesOfSnoc(size, k, OuterRun(size, k, Horizontal, r) + InnerRun(size, Horizontal, r, c), StartAt(size, Horizontal, r, c));
        conditions := conditions + [row];
        c := c + 1;
      }
      r := r + 1;
    }
  }

  /** Columns: `for c < size, for r <= size - inARow`, cells (r + i)*size + c. */
  method PushColumns(size: int, inARow: int, prefix: seq<seq<int>>) returns (conditions: seq<seq<int>>)
    ensures conditions == prefix + LinesOf(size, inARow, Block(size, inARow, Vertical))
  {
    var k := inARow;
    conditions := prefix;
    var c := 0;
    while c < size
      invariant 0 <= c <= Span(size)
      invariant conditions == prefix + LinesOf(size, k, OuterRun(size, k, Vertical, c))
    {
      var r := 0;
      while r <= size - inARow
        invariant 0 <= r <= InnerCount(size, k)
        invariant conditions == prefix + LinesOf(size, k, OuterRun(size, k, Vertical, c) + InnerRun(size, Vertical, c, r))
        decreases size - inARow - r
      {
        var col := ColumnLine(size, inARow, r, c);
        LinesOfSnoc(size, k, OuterRun(size, k, Vertical, c) + InnerRun(size, Vertical, c, r), StartAt(size, Vertical, c, r));
        conditions := conditions + [col];
        r := r + 1;
      }
      c := c + 1;
    }
  }

  /** ↘ diagonals: `for r <= size - inARow, for c <= size - inARow`,
      cells (r + i)*size + (c + i). */
  method PushDiagonals(size: int, inARow: int, prefix: seq<seq<int>>) returns (conditions: seq<seq<int>>)
    ensures conditions == prefix + LinesOf(size, inARow, Block(size, inARow, Diagonal))
  {
    var k := inARow;
    conditions := prefix;
    var r := 0;
    while r <= size - inARow
      invariant 0 <= r <= OuterCount(size, k, Diagonal)
      invariant conditions == prefix + LinesOf(size, k, OuterRun(size, k, Diagonal, r))
      decreases size - inARow - r
    {
      var c := 0;
      while c <= size - inARow
        invariant 0 <= c <= InnerCount(size, k)
        invariant conditions == prefix + LinesOf(size, k, OuterRun(size, k, Diagonal, r) + InnerRun(size, Diagonal, r, c))
        decreases size - inARow - c
      {
        var diag := DiagonalLine(size, inARow, r, c);
        LinesOfSnoc(size, k, OuterRun(size, k, Diagonal, r) + InnerRun(size, Diagonal, r, c), StartAt(size, Diagonal, r, c));
        conditions := conditions + [diag];
        c := c + 1;
      }
      r := r + 1;
    }
  }

  /** ↙ diagonals: `for r <= size - inARow, for c from size - 1 down to
      inARow - 1`, cells (r + i)*size + (c - i). */
  method PushAntiDiagonals(size: int, inARow: int, prefix: seq<seq<int>>) returns (conditions: seq<seq<int>>)
    ensures conditions == prefix + LinesOf(size, inARow, Block(size, inARow, AntiDiagonal))
  {
    var k := inARow;
    conditions := prefix;
    var r := 0;
    while r <= size - inARow
      invariant 0 <= r <= OuterCount(size, k, AntiDiagonal)
      invariant conditions == prefix + LinesOf(size, k, OuterRun(size, k, AntiDiagonal, r))
      decreases size - inARow - r
    {
      var c := size - 1;
      while c >= inARow - 1
        invariant 0 <= size - 1 - c <= InnerCount(size, k)
        invariant conditions == prefix + LinesOf(size, k, OuterRun(size, k, AntiDiagonal, r) + InnerRun(size, AntiDiagonal, r, size - 1 - c))
        decreases c - inARow + 1
      {
        var diag := AntiDiagonalLine(size, inARow, r, c);
        LinesOfSnoc(size, k, OuterRun(size, k, AntiDiagonal, r) + InnerRun(size, AntiDiagonal, r, size - 1 - c), StartAt(size, AntiDiagonal, r, size - 1 - c));
        conditions := conditions + [diag];
        c := c - 1;
      }
      r := r + 1;
    }
  }

  /** The innermost row loop: cells r*size + c + i. */
  method RowLine(size: int, inARow: int, r: int, c: int) returns (row: seq<int>)
    ensures row == Line(size, inARow, StartAt(size, Horizontal, r, c))
  {
    row := [];
    var i := 0;
    while i < inARow
      invariant 0 <= i <= Span(inARow)
      invariant row == seq(i, t => r * size + c + t)
    {
      row := row + [r * size + c + i];
      i := i + 1;
    }
  }

  /** The innermost column loop: cells (r + i)*size + c. */
  method ColumnLine(size: int, inARow: int, r: int, c: int) returns (col: seq<int>)
    ensures col == Line(size, inARow, StartAt(size, Vertical, c, r))
  {
    col := [];
    var i := 0;
    while i < inARow
      invariant 0 <= i <= Span(inARow)
      invariant col == seq(i, t => (r + t) * size + c)
    {
      col := col + [(r + i) * size + c];
      i := i + 1;
    }
  }

  /** The innermost ↘ loop: cells (r + i)*size + (c + i). */
  method DiagonalLine(size: int, inARow: int, r: int, c: int) returns (diag: seq<int>)
    ensures diag == Line(size, inARow, StartAt(size, Diagonal, r, c))
  {
    diag := [];
    var i := 0;
    while i < inARow
      invariant 0 <= i <= Span(inARow)
      invariant diag == seq(i, t => (r + t) * size + (c + t))
    {
      diag := diag + [(r + i) * size + (c + i)];
      i := i + 1;
    }
  }

  /** The innermost ↙ loop: cells (r + i)*size + (c - i). */
  method AntiDiagonalLine(size: int, inARow: int, r: int, c: int) returns (diag: seq<int>)
    ensures diag == Line(size, inARow, StartAt(size, AntiDiagonal, r, size - 1 - c))
  {
    diag := [];
    var i := 0;
    while i < inARow
      invariant 0 <= i <= Span(inARow)
      invariant diag == seq(i, t => (r + t) * size + (c - t))
    {
      diag := diag + [(r + i) * size + (c - i)];
      i := i + 1;
    }
  }

  // ---------------------------------------------------------------------
  // Properties of the generated lines

  /** Every cell of line `s` lies on the board (the run of inARow steps in
      the line's direction does not leave the N×N grid). */
  ghost predicate Fits(size: int, k: int, s: Start)
  {
    forall i :: 0 <= i < k ==> 0 <= RowAt(s, i) < size && 0 <= ColAt(s, i) < size
  }

  /** Row of a flat index. */
  function RowOf(size: int, idx: int): int
    requires size >= 1
  {
    idx / size
  }

  /** Column of a flat index. */
  function ColOf(size: int, idx: int): int
    requires size >= 1
  {
    idx % size
  }

  /** Cells `a` and `b` lie on one line of direction `d`: same row, same
      column, same r - c, or same r + c. */
  predicate OnSameLine(size: int, d: Direction, a: int, b: int)
    requires size >= 1
  {
    match d
    case Horizontal => RowOf(size, a) == RowOf(size, b)
    case Vertical => ColOf(size, a) == ColOf(size, b)
    case Diagonal => RowOf(size, a) - ColOf(size, a) == RowOf(size, b) - ColOf(size, b)
    case AntiDiagonal => RowOf(size, a) + ColOf(size, a) == RowOf(size, b) + ColOf(size, b)
  }

  /** A line without wrap-around: on the board, consecutive cells `Step`
      apart, and every cell on the same row/column/diagonal as the first. */
  ghost predicate Straight(size: int, d: Direction, line: seq<int>)
    requires size >= 1
  {
    && (forall i :: 0 <= i < |line| ==> 0 <= line[i] < size * size)
    && (forall i :: 0 < i < |line| ==> line[i] - line[i - 1] == Step(size, d))
    && (forall i :: 0 <= i < |line| ==> OnSameLine(size, d, line[0], line[i]))
  }

  /** The i-th cell of a fitting line is the flat index of (RowAt, ColAt),
      on the board, decoding back to that row and column. */
  lemma LineCell(size: int, k: int, s: Start, i: int)
    requires Fits(size, k, s) && 0 <= i < k
    ensures Line(size, k, s)[i] == Flat(size, RowAt(s, i), ColAt(s, i))
    ensures 0 <= Line(size, k, s)[i] < size * size
    ensures RowOf(size, Line(size, k, s)[i]) == RowAt(s, i)
    ensures ColOf(size, Line(size, k, s)[i]) == ColAt(s, i)
  {
    assert 0 <= RowAt(s, i) < size && 0 <= ColAt(s, i) < size;
    FlatInBounds(size, RowAt(s, i), ColAt(s, i));
    FlatDecode(size, RowAt(s, i), ColAt(s, i));
  }

  /** Consecutive cells of any line are `Step` apart. */
  lemma LineStep(size: int, k: int, s: Start, i: int)
    requires 0 < i < Span(k)
    ensures Line(size, k, s)[i] - Line(size, k, s)[i - 1] == Step(size, s.dir)
  {
    var a, b := RowAt(s, i - 1), RowAt(s, i);
    match s.dir
    case Horizontal =>
    case Vertical =>
      assert (a + 1) * size == a * size + size;
    case Diagonal =>
      assert (a + 1) * size == a * size + size;
    case AntiDiagonal =>
      assert (a + 1) * size == a * size + size;
  }

  /** Every line whose cells stay on the board is straight (no wrap-around). */
  lemma {:induction false} FittingLineStraight(size: int, k: int, s: Start)
    requires size >= 1 && Fits(size, k, s)
    ensures Straight(size, s.dir, Line(size, k, s))
  {
    var line := Line(size, k, s);
    forall i | 0 <= i < |line|
      ensures 0 <= line[i] < size * size
      ensures OnSameLine(size, s.dir, line[0], line[i])
    {
      LineCell(size, k, s, 0);
      LineCell(size, k, s, i);
    }
    forall i | 0 < i < |line|
      ensures line[i] - line[i - 1] == Step(size, s.dir)
    {
      LineStep(size, k, s, i);
    }
  }

  lemma {:induction false} InnerRunLength(size: int, d: Direction, o: int, j: nat)
    ensures |InnerRun(size, d, o, j)| == j
  {
    if j > 0 {
      InnerRunLength(size, d, o, j - 1);
    }
  }

  lemma {:induction false} OuterRunLength(size: int, k: int, d: Direction, o: nat)
    ensures |OuterRun(size, k, d, o)| == o * InnerCount(size, k)
  {
    if o > 0 {
      var m, w := o - 1, InnerCount(size, k);
      OuterRunLength(size, k, d, m);
      InnerRunLength(size, d, m, w);
      assert |OuterRun(size, k, d, m + 1)| == |OuterRun(size, k, d, m)| + w;
      MulStep(m, w);
    }
  }

  lemma BlockLength(size: int, k: int, d: Direction)
    ensures |Block(size, k, d)| == OuterCount(size, k, d) * InnerCount(size, k)
  {
    OuterRunLength(size, k, d, OuterCount(size, k, d));
  }

  /** The number of lines: N*(N-K+1) rows, as many columns, and
      (N-K+1)^2 diagonals in each diagonal direction. */
  lemma LinesCount(size: int, k: int)
    ensures |Lines(size, k)| == 2 * Span(size) * Span(size - k + 1) + 2 * Span(size - k + 1) * Span(size - k + 1)
  {
    BlockLength(size, k, Horizontal);
    BlockLength(size, k, Vertical);
    BlockLength(size, k, Diagonal);
    BlockLength(size, k, AntiDiagonal);
  }

  /** When the run is longer than the board every loop range is empty. */
  lemma NoLinesWhenTooLong(size: int, k: int)
    requires k > size
    ensures Lines(size, k) == []
  {
    LinesCount(size, k);
  }

  /** A 3×3 board with K = 3 has 8 lines: 3 rows, 3 columns, 2 diagonals. */
  lemma ThreeByThreeCount(size: int, k: int)
    requires size == 3 && k == 3
    ensures |Lines(size, k)| == 8
  {
    var n, w := Span(size), Span(size - k + 1);
    assert n == 3 && w == 1;
    assert 2 * n * w + 2 * w * w == 8;
    LinesCount(size, k);
  }

  /** The 15×15 board with K = 5 has 2*15*11 + 2*11*11 = 572 lines. */
  lemma FifteenByFiveCount(size: int, k: int)
    requires size == 15 && k == 5
    ensures |Lines(size, k)| == 572
  {
    var n, w := Span(size), Span(size - k + 1);
    assert n == 15 && w == 11;
    assert 2 * n * w + 2 * w * w == 572;
    LinesCount(size, k);
  }

  lemma {:induction false} InnerRunAt(size: int, d: Direction, o: int, j: nat, jj: int)
    requires 0 <= jj < j
    ensures |InnerRun(size, d, o, j)| == j && InnerRun(size, d, o, j)[jj] == StartAt(size, d, o, jj)
  {
    InnerRunLength(size, d, o, j);
    if jj < j - 1 {
      InnerRunAt(size, d, o, j - 1, jj);
    }
  }

  lemma {:induction false} OuterRunAt(size: int, k: int, d: Direction, o: nat, oo: int, j: int)
    requires 0 <= oo < o && 0 <= j < InnerCount(size, k)
    ensures |OuterRun(size, k, d, o)| == o * InnerCount(size, k)
    ensures OuterRun(size, k, d, o)[oo * InnerCount(size, k) + j] == StartAt(size, d, oo, j)
  {
    var w := InnerCount(size, k);
    OuterRunLength(size, k, d, o);
    OuterRunLength(size, k, d, o - 1);
    if oo == o - 1 {
      InnerRunAt(size, d, o - 1, w, j);
    } else {
      OuterRunAt(size, k, d, o - 1, oo, j);
      MulMonotone(oo + 1, o - 1, w);
      assert (oo + 1) * w == oo * w + w;
    }
  }

  /** Position of a block in the output: rows, columns, ↘, ↙. */
  function BlockOffset(size: int, k: int, d: Direction): nat
  {
    match d
    case Horizontal => 0
    case Vertical => |Block(size, k, Horizontal)|
    case Diagonal => |Block(size, k, Horizontal)| + |Block(size, k, Vertical)|
    case AntiDiagonal => |Block(size, k, Horizontal)| + |Block(size, k, Vertical)| + |Block(size, k, Diagonal)|
  }

  /** The block offsets in closed form: 0, N(N-K+1), 2N(N-K+1), 2N(N-K+1) + (N-K+1)^2. */
  lemma BlockOffsetValue(size: int, k: int, d: Direction)
    ensures var n, w := Span(size), InnerCount(size, k);
      BlockOffset(size, k, d) == match d
        case Horizontal => 0
        case Vertical => n * w
        case Diagonal => 2 * n * w
        case AntiDiagonal => 2 * n * w + w * w
  {
    BlockLength(size, k, Horizontal);
    BlockLength(size, k, Vertical);
    BlockLength(size, k, Diagonal);
  }

  /** Index `idx` of direction `d`'s block sits at BlockOffset(d) + idx of the output. */
  lemma StartsAt(size: int, k: int, d: Direction, idx: int)
    requires 0 <= idx < |Block(size, k, d)|
    ensures BlockOffset(size, k, d) + idx < |Starts(size, k)|
    ensures Starts(size, k)[BlockOffset(size, k, d) + idx] == Block(size, k, d)[idx]
  {
    var h, v, g, a := Block(size, k, Horizontal), Block(size, k, Vertical), Block(size, k, Diagonal), Block(size, k, AntiDiagonal);
    assert Starts(size, k) == h + v + g + a;
  }

  /** Output order: the line visited at outer iteration `o`, inner iteration
      `j` of direction `d`'s loop pair sits at BlockOffset(d) + o*(N-K+1) + j. */
  lemma LinesOrder(size: int, k: int, d: Direction, o: int, j: int)
    requires 0 <= o < OuterCount(size, k, d) && 0 <= j < InnerCount(size, k)
    ensures BlockOffset(size, k, d) + o * InnerCount(size, k) + j < |Lines(size, k)|
    ensures Lines(size, k)[BlockOffset(size, k, d) + o * InnerCount(size, k) + j] == Line(size, k, StartAt(size, d, o, j))
  {
    var idx := o * InnerCount(size, k) + j;
    BlockAt(size, k, d, o, j);
    StartsAt(size, k, d, idx);
    LinesAt(size, k, BlockOffset(size, k, d) + idx);
  }

  /** Outer iteration o, inner iteration j of a block is its entry o*(N-K+1) + j. */
  lemma BlockAt(size: int, k: int, d: Direction, o: int, j: int)
    requires 0 <= o < OuterCount(size, k, d) && 0 <= j < InnerCount(size, k)
    ensures 0 <= o * InnerCount(size, k) + j < |Block(size, k, d)|
    ensures Block(size, k, d)[o * InnerCount(size, k) + j] == StartAt(size, d, o, j)
  {
    var n, w := OuterCount(size, k, d), InnerCount(size, k);
    OuterRunAt(size, k, d, n, o, j);
    IndexInGrid(o, j, n, w);
    assert Block(size, k, d) == OuterRun(size, k, d, n);
  }

  /** Row-major position o*w + j of a cell in an n×w grid. */
  lemma IndexInGrid(o: int, j: int, n: int, w: int)
    requires 0 <= o < n && 0 <= j < w
    ensures 0 <= o * w + j < n * w
  {
    MulMonotone(o + 1, n, w);
    assert (o + 1) * w == o * w + w;
  }

  /** The m-th output line is the line of the m-th start. */
  lemma LinesAt(size: int, k: int, m: int)
    requires 0 <= m < |Starts(size, k)|
    ensures |Lines(size, k)| == |Starts(size, k)| && Lines(size, k)[m] == Line(size, k, Starts(size, k)[m])
  {
  }

  /** The exact output for a 3×3 board and K = 3. */
  lemma ThreeByThreeOffsets(size: int, k: int)
    requires size == 3 && k == 3
    ensures InnerCount(size, k) == 1 && |Lines(size, k)| == 8
    ensures BlockOffset(size, k, Vertical) == 3
    ensures BlockOffset(size, k, Diagonal) == 6
    ensures BlockOffset(size, k, AntiDiagonal) == 7
  {
    assert InnerCount(size, k) == 1;
    assert OuterCount(size, k, Horizontal) == 3 && OuterCount(size, k, Vertical) == 3;
    assert OuterCount(size, k, Diagonal) == 1 && OuterCount(size, k, AntiDiagonal) == 1;
    ThreeByThreeCount(size, k);
    BlockLength(size, k, Horizontal);
    BlockLength(size, k, Vertical);
    BlockLength(size, k, Diagonal);
  }

  lemma ThreeByThreeLines(size: int, k: int)
    requires size == 3 && k == 3
    ensures Lines(size, k) == [[0, 1, 2], [3, 4, 5], [6, 7, 8], [0, 3, 6], [1, 4, 7], [2, 5, 8], [0, 4, 8], [2, 4, 6]]
  {
    ThreeByThreeRows(size, k);
    ThreeByThreeColumns(size, k);
    ThreeByThreeDiagonals(size, k);
    EightLines(Lines(size, k));
  }

  lemma EightLines(ls: seq<seq<int>>)
    requires |ls| == 8
    requires ls[0] == [0, 1, 2] && ls[1] == [3, 4, 5] && ls[2] == [6, 7, 8]
    requires ls[3] == [0, 3, 6] && ls[4] == [1, 4, 7] && ls[5] == [2, 5, 8]
    requires ls[6] == [0, 4, 8] && ls[7] == [2, 4, 6]
    ensures ls == [[0, 1, 2], [3, 4, 5], [6, 7, 8], [0, 3, 6], [1, 4, 7], [2, 5, 8], [0, 4, 8], [2, 4, 6]]
  {
  }

  lemma ThreeByThreeRows(size: int, k: int)
    requires size == 3 && k == 3
    ensures |Lines(size, k)| == 8
    ensures Lines(size, k)[0] == [0, 1, 2] && Lines(size, k)[1] == [3, 4, 5] && Lines(size, k)[2] == [6, 7, 8]
  {
    ThreeByThreeOffsets(size, k);
    ThreeByThreeRow(size, k, 0, [0, 1, 2]);
    ThreeByThreeRow(size, k, 1, [3, 4, 5]);
    ThreeByThreeRow(size, k, 2, [6, 7, 8]);
  }

  lemma ThreeByThreeRow(size: int, k: int, r: int, cells: seq<int>)
    requires size == 3 && k == 3 && 0 <= r < 3
    requires cells == [3 * r, 3 * r + 1, 3 * r + 2]
    ensures r < |Lines(size, k)| && Lines(size, k)[r] == cells
  {
    assert Line(size, k, Start(Horizontal, r, 0)) == cells;
    ThreeByThreeOffsets(size, k);
    LinesOrder(size, k, Horizontal, r, 0);
  }

  lemma ThreeByThreeColumns(size: int, k: int)
    requires size == 3 && k == 3
    ensures |Lines(size, k)| == 8
    ensures Lines(size, k)[3] == [0, 3, 6] && Lines(size, k)[4] == [1, 4, 7] && Lines(size, k)[5] == [2, 5, 8]
  {
    assert Line(3, 3, Start(Vertical, 0, 0)) == [0, 3, 6];
    assert Line(3, 3, Start(Vertical, 0, 1)) == [1, 4, 7];
    assert Line(3, 3, Start(Vertical, 0, 2)) == [2, 5, 8];
    ThreeByThreeOffsets(size, k);
    LinesOrder(size, k, Vertical, 0, 0);
    LinesOrder(size, k, Vertical, 1, 0);
    LinesOrder(size, k, Vertical, 2, 0);
  }

  lemma ThreeByThreeDiagonals(size: int, k: int)
    requires size == 3 && k == 3
    ensures |Lines(size, k)| == 8
    ensures Lines(size, k)[6] == [0, 4, 8] && Lines(size, k)[7] == [2, 4, 6]
  {
    assert Line(3, 3, Start(Diagonal, 0, 0)) == [0, 4, 8];
    assert Line(3, 3, Start(AntiDiagonal, 0, 2)) == [2, 4, 6];
    ThreeByThreeOffsets(size, k);
    LinesOrder(size, k, Diagonal, 0, 0);
    LinesOrder(size, k, AntiDiagonal, 0, 0);
  }

  // ---------------------------------------------------------------------
  // Completeness and absence of duplicates

  lemma StartAtInverse(size: int, d: Direction, o: int, j: int, t: Start)
    ensures t == StartAt(size, d, o, j) <==> t.dir == d && OuterOf(t) == o && InnerOf(size, t) == j
  {
  }

  lemma {:induction false} InnerRunMembers(size: int, d: Direction, o: int, j: nat, t: Start)
    ensures t in InnerRun(size, d, o, j) <==> t.dir == d && OuterOf(t) == o && 0 <= InnerOf(size, t) < j
  {
    if j > 0 {
      InnerRunMembers(size, d, o, j - 1, t);
      StartAtInverse(size, d, o, j - 1, t);
    }
  }

  lemma {:induction false} OuterRunMembers(size: int, k: int, d: Direction, o: nat, t: Start)
    ensures t in OuterRun(size, k, d, o) <==>
      t.dir == d && 0 <= OuterOf(t) < o && 0 <= InnerOf(size, t) < InnerCount(size, k)
  {
    if o > 0 {
      OuterRunMembers(size, k, d, o - 1, t);
      InnerRunMembers(size, d, o - 1, InnerCount(size, k), t);
    }
  }

  /** A line is visited iff its loop coordinates are within the loop ranges. */
  lemma StartsMembers(size: int, k: int, t: Start)
    ensures t in Starts(size, k) <==>
      0 <= OuterOf(t) < OuterCount(size, k, t.dir) && 0 <= InnerOf(size, t) < InnerCount(size, k)
  {
    OuterRunMembers(size, k, Horizontal, OuterCount(size, k, Horizontal), t);
    OuterRunMembers(size, k, Vertical, OuterCount(size, k, Vertical), t);
    OuterRunMembers(size, k, Diagonal, OuterCount(size, k, Diagonal), t);
    OuterRunMembers(size, k, AntiDiagonal, OuterCount(size, k, AntiDiagonal), t);
  }

  /** For inARow >= 1 the loop ranges admit exactly the lines that fit on the board. */
  lemma FitsIffInRange(size: int, k: int, t: Start)
    requires k >= 1
    ensures Fits(size, k, t) <==>
      0 <= OuterOf(t) < OuterCount(size, k, t.dir) && 0 <= InnerOf(size, t) < InnerCount(size, k)
  {
    if Fits(size, k, t) {
      assert 0 <= RowAt(t, 0) < size && 0 <= ColAt(t, 0) < size;
      assert 0 <= RowAt(t, k - 1) < size && 0 <= ColAt(t, k - 1) < size;
    }
    if 0 <= OuterOf(t) < OuterCount(size, k, t.dir) && 0 <= InnerOf(size, t) < InnerCount(size, k) {
      forall i | 0 <= i < k
        ensures 0 <= RowAt(t, i) < size && 0 <= ColAt(t, i) < size
      {
      }
    }
  }

  /** Completeness: for inARow >= 1 the generator emits a line iff all of
      its cells lie on the board. */
  lemma LinesComplete(size: int, k: int, s: Start)
    requires k >= 1
    ensures s in Starts(size, k) <==> Fits(size, k, s)
    ensures Fits(size, k, s) ==>
      exists m :: 0 <= m < |Lines(size, k)| && Starts(size, k)[m] == s && Lines(size, k)[m] == Line(size, k, s)
  {
    StartsMembers(size, k, s);
    FitsIffInRange(size, k, s);
    if Fits(size, k, s) {
      var m :| 0 <= m < |Starts(size, k)| && Starts(size, k)[m] == s;
      assert Lines(size, k)[m] == Line(size, k, s);
    }
  }

  /** Soundness: the m-th emitted condition is the line of the m-th visited
      start, has inARow entries, fits on the board, and is straight: every
      index in [0, N*N), consecutive indices `Step` apart, all on the first
      cell's row, column, r - c or r + c. */
  lemma LinesSound(size: int, k: int, m: int)
    requires 0 <= m < |Lines(size, k)|
    ensures |Lines(size, k)[m]| == Span(k)
    ensures Lines(size, k)[m] == Line(size, k, Starts(size, k)[m]) && Fits(size, k, Starts(size, k)[m])
    ensures size >= 1 ==> Straight(size, Starts(size, k)[m].dir, Lines(size, k)[m])
  {
    var s := Starts(size, k)[m];
    StartsMembers(size, k, s);
    if k >= 1 {
      FitsIffInRange(size, k, s);
    }
    if size >= 1 {
      FittingLineStraight(size, k, s);
    }
  }

  /** Every index of every emitted condition lies on the board. */
  lemma LinesInBounds(size: int, k: int)
    requires size >= 1
    ensures forall m, i :: 0 <= m < |Lines(size, k)| && 0 <= i < |Lines(size, k)[m]| ==> 0 <= Lines(size, k)[m][i] < size * size
  {
    forall m, i | 0 <= m < |Lines(size, k)| && 0 <= i < |Lines(size, k)[m]|
      ensures 0 <= Lines(size, k)[m][i] < size * size
    {
      LinesSound(size, k, m);
    }
  }

  ghost predicate Distinct<T>(s: seq<T>)
  {
    forall i, j :: 0 <= i < j < |s| ==> s[i] != s[j]
  }

  lemma DistinctConcat<T>(a: seq<T>, b: seq<T>)
    requires Distinct(a) && Distinct(b)
    requires forall x :: x in a ==> x !in b
    ensures Distinct(a + b)
  {
    forall i, j | 0 <= i < j < |a + b|
      ensures (a + b)[i] != (a + b)[j]
    {
      if i < |a| && j >= |a| {
        assert (a + b)[i] in a && (a + b)[j] in b;
      }
    }
  }

  lemma {:induction false} InnerRunDistinct(size: int, d: Direction, o: int, j: nat)
    ensures Distinct(InnerRun(size, d, o, j))
  {
    if j > 0 {
      InnerRunDistinct(size, d, o, j - 1);
      InnerRunMembers(size, d, o, j - 1, StartAt(size, d, o, j - 1));
      DistinctConcat(InnerRun(size, d, o, j - 1), [StartAt(size, d, o, j - 1)]);
    }
  }

  lemma {:induction false} OuterRunDistinct(size: int, k: int, d: Direction, o: nat)
    ensures Distinct(OuterRun(size, k, d, o))
  {
    if o > 0 {
      var m, w := o - 1, InnerCount(size, k);
      OuterRunDistinct(size, k, d, m);
      InnerRunDistinct(size, d, m, w);
      var prev, last := OuterRun(size, k, d, m), InnerRun(size, d, m, w);
      OuterRunDisjoint(size, k, d, m);
      DistinctConcat(prev, last);
      assert OuterRun(size, k, d, o) == prev + last;
    }
  }

  /** The lines of outer iteration m are not among those of the earlier ones. */
  lemma OuterRunDisjoint(size: int, k: int, d: Direction, m: nat)
    ensures forall t :: t in OuterRun(size, k, d, m) ==> t !in InnerRun(size, d, m, InnerCount(size, k))
  {
    forall t | t in OuterRun(size, k, d, m)
      ensures t !in InnerRun(size, d, m, InnerCount(size, k))
    {
      OuterRunMembers(size, k, d, m, t);
      InnerRunMembers(size, d, m, InnerCount(size, k), t);
    }
  }

  lemma BlockMembersDirection(size: int, k: int, d: Direction, t: Start)
    requires t in Block(size, k, d)
    ensures t.dir == d
  {
    OuterRunMembers(size, k, d, OuterCount(size, k, d), t);
  }

  /** No line is visited twice. */
  lemma StartsDistinct(size: int, k: int)
    ensures Distinct(Starts(size, k))
  {
    var h, v, g, a := Block(size, k, Horizontal), Block(size, k, Vertical), Block(size, k, Diagonal), Block(size, k, AntiDiagonal);
    OuterRunDistinct(size, k, Horizontal, OuterCount(size, k, Horizontal));
    OuterRunDistinct(size, k, Vertical, OuterCount(size, k, Vertical));
    OuterRunDistinct(size, k, Diagonal, OuterCount(size, k, Diagonal));
    OuterRunDistinct(size, k, AntiDiagonal, OuterCount(size, k, AntiDiagonal));
    forall t | t in v ensures t.dir == Vertical { BlockMembersDirection(size, k, Vertical, t); }
    forall t | t in g ensures t.dir == Diagonal { BlockMembersDirection(size, k, Diagonal, t); }
    forall t | t in a ensures t.dir == AntiDiagonal { BlockMembersDirection(size, k, AntiDiagonal, t); }
    forall t | t in h ensures t.dir == Horizontal { BlockMembersDirection(size, k, Horizontal, t); }
    DistinctConcat(h, v);
    DistinctConcat(h + v, g);
    DistinctConcat(h + v + g, a);
  }

  /** For inARow >= 2 a fitting line's index sequence determines its start
      and direction (the first index gives the cell, the first step the
      direction; on a 2×2 board, where ↙ and → both step by 1, the column
      ranges keep them apart). */
  lemma LineInjective(size: int, k: int, s1: Start, s2: Start)
    requires k >= 2 && Fits(size, k, s1) && Fits(size, k, s2)
    requires Line(size, k, s1) == Line(size, k, s2)
    ensures s1 == s2
  {
    assert 0 <= RowAt(s1, 1) < size && 0 <= ColAt(s1, 1) < size;
    assert 0 <= RowAt(s2, 1) < size && 0 <= ColAt(s2, 1) < size;
    LineCell(size, k, s1, 0);
    LineCell(size, k, s2, 0);
    FlatInjective(size, s1.r, s1.c, s2.r, s2.c);
    LineStep(size, k, s1, 1);
    LineStep(size, k, s2, 1);
  }

  /** No duplicates: for inARow >= 2 all emitted conditions differ. */
  lemma LinesDistinct(size: int, k: int)
    requires k >= 2
    ensures Distinct(Lines(size, k))
  {
    StartsDistinct(size, k);
    forall m1, m2 | 0 <= m1 < m2 < |Lines(size, k)|
      ensures Lines(size, k)[m1] != Lines(size, k)[m2]
    {
      LinesSound(size, k, m1);
      LinesSound(size, k, m2);
      if Lines(size, k)[m1] == Lines(size, k)[m2] {
        LineInjective(size, k, Starts(size, k)[m1], Starts(size, k)[m2]);
      }
    }
  }

  /** With inARow = 1 the deduplication fails: the single cell 0 is emitted
      both as the first row line and as the first column line. */
  lemma SingletonLinesRepeat(size: int, k: int)
    requires size >= 1 && k == 1
    ensures size * size < |Lines(size, k)|
    ensures Lines(size, k)[0] == [0] && Lines(size, k)[size * size] == [0]
  {
    assert InnerCount(size, k) == size && OuterCount(size, k, Vertical) == size;
    BlockOffsetValue(size, k, Vertical);
    LinesOrder(size, k, Horizontal, 0, 0);
    LinesOrder(size, k, Vertical, 0, 0);
    assert Line(size, k, Start(Horizontal, 0, 0)) == [0];
    assert Line(size, k, Start(Vertical, 0, 0)) == [0];
  }

  /** With inARow = 1 each of the four blocks has size² entries, so the
      output has 4·size² conditions, block d occupying positions
      [BlockOffset(d), BlockOffset(d) + size²). */
  lemma SingletonBlocks(size: int, k: int, d: Direction)
    requires size >= 1 && k == 1
    ensures |Lines(size, k)| == 4 * (size * size)
    ensures |Block(size, k, d)| == size * size
    ensures 0 <= BlockOffset(size, k, d) && BlockOffset(size, k, d) + size * size <= |Lines(size, k)|
  {
    assert InnerCount(size, k) == size && OuterCount(size, k, d) == size;
    BlockLength(size, k, d);
    LinesCount(size, k);
    BlockOffsetValue(size, k, d);
  }

  /** With inARow = 1 the one-cell condition [idx] of every board cell is
      emitted in each of the four blocks: at r*size+c among the rows, at
      c*size+r among the columns, and so on. */
  lemma SingletonInEveryBlock(size: int, k: int, d: Direction, idx: int)
    requires size >= 1 && k == 1 && 0 <= idx < size * size
    ensures exists m ::
      BlockOffset(size, k, d) <= m < BlockOffset(size, k, d) + size * size && m < |Lines(size, k)| && Lines(size, k)[m] == [idx]
  {
    SingletonBlocks(size, k, d);
    DecodeInBounds(size, idx);
    var r, c := idx / size, idx % size;
    var o, j := if d == Vertical then c else r,
                if d == Vertical then r else if d == AntiDiagonal then size - 1 - c else c;
    assert 0 <= o < OuterCount(size, k, d) && 0 <= j < InnerCount(size, k);
    assert StartAt(size, d, o, j) == Start(d, r, c);
    assert Line(size, k, Start(d, r, c)) == [idx];
    LinesOrder(size, k, d, o, j);
    IndexInGrid(o, j, size, size);
    var m := BlockOffset(size, k, d) + o * InnerCount(size, k) + j;
    assert Lines(size, k)[m] == [idx];
  }

  /** With inARow = 1 no block repeats a condition: each cell's one-cell
      condition appears exactly once per block, so four times in all. */
  lemma SingletonOncePerBlock(size: int, k: int, d: Direction, m1: int, m2: int)
    requires size >= 1 && k == 1
    requires BlockOffset(size, k, d) <= m1 < m2 < BlockOffset(size, k, d) + size * size
    ensures m2 < |Lines(size, k)| && Lines(size, k)[m1] != Lines(size, k)[m2]
  {
    SingletonBlocks(size, k, d);
    var off := BlockOffset(size, k, d);
    StartsAt(size, k, d, m1 - off);
    StartsAt(size, k, d, m2 - off);
    var s1, s2 := Starts(size, k)[m1], Starts(size, k)[m2];
    BlockMembersDirection(size, k, d, s1);
    BlockMembersDirection(size, k, d, s2);
    LinesSound(size, k, m1);
    LinesSound(size, k, m2);
    StartsDistinct(size, k);
    assert s1 != s2;
    if Lines(size, k)[m1] == Lines(size, k)[m2] {
      LineCell(size, k, s1, 0);
      LineCell(size, k, s2, 0);
      FlatInjective(size, s1.r, s1.c, s2.r, s2.c);
      assert false;
    }
  }
}
