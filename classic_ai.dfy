/** The heuristic opponent of services/classicAiService.ts. It keeps the empty
    cells next to an occupied cell, scores each one as 10^run for its own
    stone plus 0.9 × 10^run for the opponent's stone, and plays the first cell
    with the strictly best score; an empty board gets the centre.

    The 0.9 weight is modelled in integers: every score is multiplied by ten,
    so a candidate is ranked by 10*offence + 9*defence. */
module ClassicAi {
  import opened Board
  import opened WinningLines

  function Max(a: int, b: int): int
  {
    if a >= b then a else b
  }

  // ---------------------------------------------------------------------------
  // isSameLine
  // ---------------------------------------------------------------------------

  /** `isSameLine(idx1, idx2, dir, size)`: both indices on the board and, for
      the four direction steps 1, size, size+1 and size-1 (tested in that
      order), equal rows, equal columns, equal r-c or equal r+c. */
  function IsSameLine(idx1: int, idx2: int, dir: int, size: int): (same: bool)
    requires size >= 1
    ensures same ==> 0 <= idx1 < size * size && 0 <= idx2 < size * size
  {
    if idx1 < 0 || idx1 >= size * size || idx2 < 0 || idx2 >= size * size then false
    else
      var r1, c1 := idx1 / size, idx1 % size;
      var r2, c2 := idx2 / size, idx2 % size;
      if dir == 1 then r1 == r2
      else if dir == size then c1 == c2
      else if dir == size + 1 then r1 - c1 == r2 - c2
      else if dir == size - 1 then r1 + c1 == r2 + c2
      else false
  }

  /** From size 3 on, the four steps are distinct, so the test for step
      `Step(size, d)` is exactly "both on the board and on one line of
      direction d". */
  lemma SameLineByDirection(size: int, d: Direction, a: int, b: int)
    requires size >= 3
    ensures IsSameLine(a, b, Step(size, d), size)
        <==> 0 <= a < size * size && 0 <= b < size * size && OnSameLine(size, d, a, b)
  {
  }

  /** A step that is none of the four directions never joins two cells. */
  lemma OtherStepNeverSame(size: int, a: int, b: int, dir: int)
    requires size >= 1
    requires dir != 1 && dir != size && dir != size + 1 && dir != size - 1
    ensures !IsSameLine(a, b, dir, size)
  {
  }

  /** No wrap-around: from an on-board cell (r, c), going t steps in
      direction d passes the line test exactly when the geometric target
      cell (the t-th cell of the line starting at (r, c)) is on the board. */
  lemma SameLineIffNoWrap(size: int, idx: int, d: Direction, t: int)
    requires size >= 3 && 0 <= idx < size * size
    ensures var s := Start(d, idx / size, idx % size);
      (IsSameLine(idx, idx + t * Step(size, d), Step(size, d), size)
       <==> (0 <= RowAt(s, t) < size && 0 <= ColAt(s, t) < size))
  {
    var r, c := idx / size, idx % size;
    DecodeInBounds(size, idx);
    var s := Start(d, r, c);
    var j := idx + t * Step(size, d);
    var rt, ct := RowAt(s, t), ColAt(s, t);
    StepForward(size, d, r, c, t);
    if 0 <= rt < size && 0 <= ct < size {
      OnBoardStepIsSameLine(size, d, idx, r, c, rt, ct, j);
    } else if IsSameLine(idx, j, Step(size, d), size) {
      DecodeInBounds(size, j);
      StepBack(size, d, r, c, j / size, j % size, t);
      assert false;
    }
  }

  /** t steps of d from (r, c) in flat-index terms land on the flat index of
      the line's t-th cell. */
  lemma StepForward(size: int, d: Direction, r: int, c: int, t: int)
    ensures r * size + c + t * Step(size, d) == Flat(size, RowAt(Start(d, r, c), t), ColAt(Start(d, r, c), t))
  {
    match d
    case Horizontal =>
    case Vertical =>
      assert (r + t) * size == r * size + t * size;
    case Diagonal =>
      assert (r + t) * size == r * size + t * size;
      assert t * (size + 1) == t * size + t;
    case AntiDiagonal =>
      assert (r + t) * size == r * size + t * size;
      assert t * (size - 1) == t * size - t;
  }

  /** (r2, c2) is on the line of direction d through (r, c): the comparison
      `isSameLine` makes for that direction's step. */
  predicate Aligned(d: Direction, r: int, c: int, r2: int, c2: int)
  {
    match d
    case Horizontal => r2 == r
    case Vertical => c2 == c
    case Diagonal => r2 - c2 == r - c
    case AntiDiagonal => r2 + c2 == r + c
  }

  /** An on-board geometric target passes the line test. */
  lemma OnBoardStepIsSameLine(size: int, d: Direction, idx: int, r: int, c: int, rt: int, ct: int, j: int)
    requires size >= 3 && 0 <= idx < size * size && r == idx / size && c == idx % size
    requires 0 <= rt < size && 0 <= ct < size && j == Flat(size, rt, ct)
    requires Aligned(d, r, c, rt, ct)
    ensures IsSameLine(idx, j, Step(size, d), size)
  {
    FlatInBounds(size, rt, ct);
    FlatDecode(size, rt, ct);
  }

  /** Decoding a stepped index: if (r2, c2) sits t steps of d from (r, c) in
      flat-index terms and passes the direction's row/column comparison, it
      is the geometric t-th cell of the line. */
  lemma StepBack(size: int, d: Direction, r: int, c: int, r2: int, c2: int, t: int)
    requires size >= 3
    requires r2 * size + c2 == r * size + c + t * Step(size, d)
    requires Aligned(d, r, c, r2, c2)
    ensures r2 == RowAt(Start(d, r, c), t) && c2 == ColAt(Start(d, r, c), t)
  {
    var a := r2 - r;
    assert r2 * size == r * size + a * size by {
      assert r2 == r + a;
    }
    match d
    case Horizontal =>
    case Vertical =>
      MulCancel(a, t, size);
    case Diagonal =>
      assert a * (size + 1) == a * size + a;
      assert t * (size + 1) == t * size + t;
      MulCancel(a, t, size + 1);
    case AntiDiagonal =>
      assert a * (size - 1) == a * size - a;
      assert t * (size - 1) == t * size - t;
      MulCancel(a, t, size - 1);
  }

  /** On a 2×2 board the ↙ step size-1 equals the → step 1, so the first
      branch answers: the ↙ neighbours 1 = (0, 1) and 2 = (1, 0) are not
      "on the same line" for the ↙ step even though r + c agrees. */
  lemma SizeTwoAntiDiagonalQuirk()
    ensures Step(2, AntiDiagonal) == 1
    ensures OnSameLine(2, AntiDiagonal, 1, 2)
    ensures !IsSameLine(1, 2, Step(2, AntiDiagonal), 2)
  {
  }

  /** Every winning line of the generator passes the line test pairwise in
      its own direction (size >= 3, 1 <= inARow). */
  lemma WinningLinesAreSameLine(size: int, k: int, m: int, i: int, i2: int)
    requires size >= 3 && k >= 1
    requires 0 <= m < |Lines(size, k)|
    requires 0 <= i < k && 0 <= i2 < k
    ensures IsSameLine(Lines(size, k)[m][i], Lines(size, k)[m][i2], Step(size, Starts(size, k)[m].dir), size)
  {
    LinesSound(size, k, m);
    var line := Lines(size, k)[m];
    var d := Starts(size, k)[m].dir;
    assert OnSameLine(size, d, line[0], line[i]);
    assert OnSameLine(size, d, line[0], line[i2]);
    SameLineByDirection(size, d, line[i], line[i2]);
  }

  // ---------------------------------------------------------------------------
  // hasNeighbor
  // ---------------------------------------------------------------------------

  /** Cells i and j differ and are a king move apart (rows and columns
      differ by at most one). */
  predicate Adjacent(size: int, i: int, j: int)
    requires size >= 1
  {
    && i != j
    && -1 <= i / size - j / size <= 1
    && -1 <= i % size - j % size <= 1
  }

  /** Some on-board king-move neighbour of `index` holds a stone. */
  ghost predicate HasOccupiedNeighbor(b: seq<Cell>, size: int, index: int)
    requires size >= 1
  {
    exists j :: 0 <= j < |b| && Adjacent(size, index, j) && b[j] != Empty
  }

  /** The neighbour at offset (dr, dc) from `index` is on the board and occupied. */
  predicate OccupiedOffset(b: seq<Cell>, size: int, index: int, dr: int, dc: int)
    requires size >= 1 && |b| == size * size
  {
    var nr, nc := index / size + dr, index % size + dc;
    if 0 <= nr < size && 0 <= nc < size then
      FlatInBounds(size, nr, nc);
      b[nr * size + nc] != Empty
    else false
  }

  /** An adjacent occupied cell is one of the eight offsets. */
  lemma NeighbourOffset(b: seq<Cell>, size: int, index: int, j: int)
    requires size >= 1 && |b| == size * size
    requires 0 <= index < |b| && 0 <= j < |b| && Adjacent(size, index, j)
    ensures var dr, dc := j / size - index / size, j % size - index % size;
      && -1 <= dr <= 1 && -1 <= dc <= 1 && (dr, dc) != (0, 0)
      && (b[j] != Empty ==> OccupiedOffset(b, size, index, dr, dc))
  {
    DecodeInBounds(size, j);
    DecodeInBounds(size, index);
  }

  /** `hasNeighbor(index, board, size)`: the 3×3 scan around `index` with an
      early return on the first occupied neighbour. */
  method HasNeighbor(index: int, board: array<Cell>, size: int) returns (found: bool)
    requires size >= 1 && board.Length == size * size && 0 <= index < board.Length
    ensures found <==> HasOccupiedNeighbor(board[..], size, index)
  {
    ghost var b := board[..];
    var r := index / size;
    var c := index % size;
    for dr := -1 to 2
      invariant forall a, e :: -1 <= a < dr && -1 <= e <= 1 && (a, e) != (0, 0) ==>
        !OccupiedOffset(b, size, index, a, e)
    {
      for dc := -1 to 2
        invariant forall e :: -1 <= e < dc && (dr, e) != (0, 0) ==>
          !OccupiedOffset(b, size, index, dr, e)
      {
        if dr == 0 && dc == 0 {
          continue;
        }
        var nr := r + dr;
        var nc := c + dc;
        if 0 <= nr < size && 0 <= nc < size {
          FlatInBounds(size, nr, nc);
        }
        if nr >= 0 && nr < size && nc >= 0 && nc < size && board[nr * size + nc] != Empty {
          OffsetIsNeighbour(b, size, index, dr, dc);
          return true;
        }
      }
    }
    forall j | 0 <= j < |b| && Adjacent(size, index, j)
      ensures b[j] == Empty
    {
      NeighbourOffset(b, size, index, j);
    }
    return false;
  }

  /** An occupied cell at one of the eight offsets is an occupied neighbour. */
  lemma OffsetIsNeighbour(b: seq<Cell>, size: int, index: int, dr: int, dc: int)
    requires size >= 1 && |b| == size * size && 0 <= index < |b|
    requires -1 <= dr <= 1 && -1 <= dc <= 1 && (dr, dc) != (0, 0)
    requires OccupiedOffset(b, size, index, dr, dc)
    ensures HasOccupiedNeighbor(b, size, index)
  {
    var nr, nc := index / size + dr, index % size + dc;
    FlatInBounds(size, nr, nc);
    FlatDecode(size, nr, nc);
    assert Adjacent(size, index, nr * size + nc);
  }

  // ---------------------------------------------------------------------------
  // getScoreForMove
  // ---------------------------------------------------------------------------

  /** The cell t steps of `dir` before `index` passes the line test and holds p. */
  predicate BackHolds(b: seq<Cell>, size: int, index: int, dir: int, p: Player, t: int)
    requires size >= 1 && |b| == size * size
  {
    IsSameLine(index, index - t * dir, dir, size) && b[index - t * dir] == Mark(p)
  }

  /** The cell t steps of `dir` after `index` passes the line test and holds p. */
  predicate ForwardHolds(b: seq<Cell>, size: int, index: int, dir: int, p: Player, t: int)
    requires size >= 1 && |b| == size * size
  {
    IsSameLine(index, index + t * dir, dir, size) && b[index + t * dir] == Mark(p)
  }

  /** Number of consecutive holding cells backwards from step t, below step 5. */
  function BackRun(b: seq<Cell>, size: int, index: int, dir: int, p: Player, t: nat): nat
    requires size >= 1 && |b| == size * size
    decreases 5 - t
  {
    if t >= 5 || !BackHolds(b, size, index, dir, p, t) then 0
    else 1 + BackRun(b, size, index, dir, p, t + 1)
  }

  /** Number of consecutive holding cells forwards from step t, below step 5. */
  function ForwardRun(b: seq<Cell>, size: int, index: int, dir: int, p: Player, t: nat): nat
    requires size >= 1 && |b| == size * size
    decreases 5 - t
  {
    if t >= 5 || !ForwardHolds(b, size, index, dir, p, t) then 0
    else 1 + ForwardRun(b, size, index, dir, p, t + 1)
  }

  /** The backward run from step t is the longest block of holding steps
      t, t+1, ... that stays below 5. */
  lemma {:induction false} BackRunMaximal(b: seq<Cell>, size: int, index: int, dir: int, p: Player, t: nat)
    requires size >= 1 && |b| == size * size && t <= 5
    ensures t + BackRun(b, size, index, dir, p, t) <= 5
    ensures forall u :: t <= u < t + BackRun(b, size, index, dir, p, t) ==> BackHolds(b, size, index, dir, p, u)
    ensures t + BackRun(b, size, index, dir, p, t) < 5 ==>
      !BackHolds(b, size, index, dir, p, t + BackRun(b, size, index, dir, p, t))
    decreases 5 - t
  {
    if t < 5 && BackHolds(b, size, index, dir, p, t) {
      BackRunMaximal(b, size, index, dir, p, t + 1);
      assert BackRun(b, size, index, dir, p, t) == 1 + BackRun(b, size, index, dir, p, t + 1);
    }
  }

  /** The forward run from step t is the longest block of holding steps
      t, t+1, ... that stays below 5. */
  lemma {:induction false} ForwardRunMaximal(b: seq<Cell>, size: int, index: int, dir: int, p: Player, t: nat)
    requires size >= 1 && |b| == size * size && t <= 5
    ensures t + ForwardRun(b, size, index, dir, p, t) <= 5
    ensures forall u :: t <= u < t + ForwardRun(b, size, index, dir, p, t) ==> ForwardHolds(b, size, index, dir, p, u)
    ensures t + ForwardRun(b, size, index, dir, p, t) < 5 ==>
      !ForwardHolds(b, size, index, dir, p, t + ForwardRun(b, size, index, dir, p, t))
    decreases 5 - t
  {
    if t < 5 && ForwardHolds(b, size, index, dir, p, t) {
      ForwardRunMaximal(b, size, index, dir, p, t + 1);
      assert ForwardRun(b, size, index, dir, p, t) == 1 + ForwardRun(b, size, index, dir, p, t + 1);
    }
  }

  /** The run through `index` for one direction: up to 4 cells behind it plus
      up to 5 cells from it onwards. */
  function RunThrough(b: seq<Cell>, size: int, index: int, dir: int, p: Player): nat
    requires size >= 1 && |b| == size * size
  {
    BackRun(b, size, index, dir, p, 1) + ForwardRun(b, size, index, dir, p, 0)
  }

  /** The four direction steps →, ↓, ↘, ↙. */
  function Directions(size: int): seq<int>
  {
    [1, size, size + 1, size - 1]
  }

  /** The longest run over the first n directions. */
  function LongestRunOver(b: seq<Cell>, size: int, index: int, p: Player, n: nat): nat
    requires size >= 1 && |b| == size * size && n <= 4
  {
    if n == 0 then 0
    else Max(LongestRunOver(b, size, index, p, n - 1), RunThrough(b, size, index, Directions(size)[n - 1], p))
  }

  function LongestRun(b: seq<Cell>, size: int, index: int, p: Player): nat
    requires size >= 1 && |b| == size * size
  {
    LongestRunOver(b, size, index, p, 4)
  }

  function Pow10(k: nat): (r: nat)
    ensures r >= 1
  {
    if k == 0 then 1 else 10 * Pow10(k - 1)
  }

  /** Value of playing p at `index`: ten to the longest run that stone
      would be part of. */
  function Score(b: seq<Cell>, size: int, index: int, p: Player): (r: nat)
    requires size >= 1 && |b| == size * size && 0 <= index < |b|
    ensures r >= 10
  {
    LongestRunBounds(WithMove(b, index, p), size, index, p);
    AtMostPow10(1, LongestRun(WithMove(b, index, p), size, index, p));
    Pow10(LongestRun(WithMove(b, index, p), size, index, p))
  }

  lemma {:induction false} Pow10Increasing(a: nat, b: nat)
    requires a < b
    ensures Pow10(a) < Pow10(b)
    decreases b
  {
    if a < b - 1 {
      Pow10Increasing(a, b - 1);
    }
  }

  lemma Pow10OfMax(a: nat, b: nat)
    ensures Pow10(Max(a, b)) == Max(Pow10(a), Pow10(b))
  {
    if a < b {
      Pow10Increasing(a, b);
    } else if b < a {
      Pow10Increasing(b, a);
    }
  }

  /** `getScoreForMove(index, player, board, size)`: scores on a fresh copy
      of the board (the caller's array is not in the frame), counting the
      backward run (steps 1..4) and the forward run (steps 0..4) in each
      direction and keeping the largest power of ten. */
  method GetScoreForMove(index: int, player: Player, board: array<Cell>, size: int) returns (maxScore: nat)
    requires size >= 1 && board.Length == size * size && 0 <= index < board.Length
    ensures maxScore == Score(board[..], size, index, player)
  {
    var tempBoard := new Cell[board.Length](i reads board requires 0 <= i < board.Length => board[i]);
    tempBoard[index] := Mark(player);
    ghost var s := tempBoard[..];
    assert s == WithMove(board[..], index, player);
    var directions := [1, size, size + 1, size - 1];
    maxScore := 0;
    for d := 0 to 4
      invariant tempBoard[..] == s
      invariant maxScore == if d == 0 then 0 else Pow10(LongestRunOver(s, size, index, player, d))
    {
      var dir := directions[d];
      assert dir == Directions(size)[d];
      var consecutive := CountBackward(tempBoard, index, dir, player, size);
      consecutive := CountForward(tempBoard, index, dir, player, size, consecutive);
      var score := Pow10(consecutive);
      BestPowerStep(s, size, index, player, d, consecutive, maxScore);
      if score > maxScore {
        maxScore := score;
      }
    }
  }

  /** One round of the direction loop: keeping the larger of the best power
      so far and 10^run of the next direction gives the power of the longest
      run over one more direction. */
  lemma BestPowerStep(b: seq<Cell>, size: int, index: int, p: Player, d: nat, run: nat, best: nat)
    requires size >= 1 && |b| == size * size && d < 4
    requires run == RunThrough(b, size, index, Directions(size)[d], p)
    requires best == if d == 0 then 0 else Pow10(LongestRunOver(b, size, index, p, d))
    ensures (if Pow10(run) > best then Pow10(run) else best) == Pow10(LongestRunOver(b, size, index, p, d + 1))
  {
    assert LongestRunOver(b, size, index, p, d + 1) == Max(LongestRunOver(b, size, index, p, d), run);
    if d > 0 {
      Pow10OfMax(LongestRunOver(b, size, index, p, d), run);
    }
  }

  /** The backward loop of `getScoreForMove` (steps 1..4, stopping at the
      first cell off the line or not holding the player's stone). */
  method CountBackward(tempBoard: array<Cell>, index: int, dir: int, player: Player, size: int)
    returns (consecutive: nat)
    requires size >= 1 && tempBoard.Length == size * size
    ensures consecutive == BackRun(tempBoard[..], size, index, dir, player, 1)
  {
    consecutive := 0;
    for i := 1 to 5
      invariant consecutive == i - 1
      invariant BackRun(tempBoard[..], size, index, dir, player, 1) == consecutive + BackRun(tempBoard[..], size, index, dir, player, i)
    {
      var checkIndex := index - i * dir;
      if IsSameLine(index, checkIndex, dir, size) && tempBoard[checkIndex] == Mark(player) {
        consecutive := consecutive + 1;
      } else {
        assert !BackHolds(tempBoard[..], size, index, dir, player, i);
        break;
      }
    }
  }

  /** The forward loop of `getScoreForMove` (steps 0..4, the first being the
      cell itself), adding to the backward count. */
  method CountForward(tempBoard: array<Cell>, index: int, dir: int, player: Player, size: int, back: nat)
    returns (consecutive: nat)
    requires size >= 1 && tempBoard.Length == size * size
    ensures consecutive == back + ForwardRun(tempBoard[..], size, index, dir, player, 0)
  {
    consecutive := back;
    for i := 0 to 5
      invariant back + ForwardRun(tempBoard[..], size, index, dir, player, 0) == consecutive + ForwardRun(tempBoard[..], size, index, dir, player, i)
    {
      var checkIndex := index + i * dir;
      if IsSameLine(index, checkIndex, dir, size) && tempBoard[checkIndex] == Mark(player) {
        consecutive := consecutive + 1;
      } else {
        assert !ForwardHolds(tempBoard[..], size, index, dir, player, i);
        break;
      }
    }
  }

  /** Each direction's run counts the new stone itself and at most 4 + 5
      cells, so the longest run is between 1 and 9. */
  lemma LongestRunBounds(b: seq<Cell>, size: int, index: int, p: Player)
    requires size >= 1 && |b| == size * size && 0 <= index < |b| && b[index] == Mark(p)
    ensures 1 <= LongestRun(b, size, index, p) <= 9
  {
    LongestRunOverBounds(b, size, index, p, 4);
  }

  lemma {:induction false} LongestRunOverBounds(b: seq<Cell>, size: int, index: int, p: Player, n: nat)
    requires size >= 1 && |b| == size * size && 0 <= index < |b| && b[index] == Mark(p)
    requires 1 <= n <= 4
    ensures 1 <= LongestRunOver(b, size, index, p, n) <= 9
  {
    RunThroughBounds(b, size, index, Directions(size)[n - 1], p);
    if n > 1 {
      LongestRunOverBounds(b, size, index, p, n - 1);
    }
  }

  /** For one of the four directions, the run through a cell holding p
      counts that cell and at most 4 + 5 cells in all. */
  lemma RunThroughBounds(b: seq<Cell>, size: int, index: int, dir: int, p: Player)
    requires size >= 1 && |b| == size * size && 0 <= index < |b| && b[index] == Mark(p)
    requires dir in Directions(size)
    ensures 1 <= RunThrough(b, size, index, dir, p) <= 9
  {
    BackRunMaximal(b, size, index, dir, p, 1);
    ForwardRunMaximal(b, size, index, dir, p, 0);
    assert ForwardHolds(b, size, index, dir, p, 0);
  }

  /** `getScoreForMove` returns 10^k with 1 <= k <= 9. */
  lemma ScoreBounds(b: seq<Cell>, size: int, index: int, p: Player)
    requires size >= 1 && |b| == size * size && 0 <= index < |b|
    ensures exists k :: 1 <= k <= 9 && Score(b, size, index, p) == Pow10(k)
    ensures 10 <= Score(b, size, index, p) <= 1000000000
  {
    var k := LongestRun(WithMove(b, index, p), size, index, p);
    LongestRunBounds(WithMove(b, index, p), size, index, p);
    if k > 1 {
      Pow10Increasing(1, k);
    }
    if k < 9 {
      Pow10Increasing(k, 9);
    }
  }

  /** A longer run through the cell gives a strictly higher score. */
  lemma LongerRunScoresHigher(b1: seq<Cell>, b2: seq<Cell>, size: int, i1: int, i2: int, p1: Player, p2: Player)
    requires size >= 1 && |b1| == size * size && |b2| == size * size
    requires 0 <= i1 < |b1| && 0 <= i2 < |b2|
    requires LongestRun(WithMove(b1, i1, p1), size, i1, p1) < LongestRun(WithMove(b2, i2, p2), size, i2, p2)
    ensures Score(b1, size, i1, p1) < Score(b2, size, i2, p2)
  {
    Pow10Increasing(LongestRun(WithMove(b1, i1, p1), size, i1, p1), LongestRun(WithMove(b2, i2, p2), size, i2, p2));
  }

  // ---------------------------------------------------------------------------
  // getClassicAIMove
  // ---------------------------------------------------------------------------

  /** The move and the explanation string returned to the caller. */
  datatype AiMove = AiMove(row: int, col: int, thought: string)

  const OpeningThought: string := "A classic opening move."
  const HeuristicThought: string := "A calculated move based on board heuristics."

  /** `offensiveScore + defensiveScore * 0.9`, scaled by ten. */
  function Weighted(offence: int, defence: int): int
  {
    10 * offence + 9 * defence
  }

  /** The ranking value of cell j for the AI: its own score and the score
      its opponent would get there. */
  function Combined(b: seq<Cell>, size: int, j: int, ai: Player): (r: int)
    requires size >= 1 && |b| == size * size && 0 <= j < |b|
    ensures r >= 10
  {
    Weighted(Score(b, size, j, ai), Score(b, size, j, Other(ai)))
  }

  /** The scaled comparison ranks as the source's weighted sum does: for
      any two candidates, off1 + 0.9*def1 > off2 + 0.9*def2 exactly when the
      scaled values compare the same way. */
  lemma WeightedOrder(o1: int, d1: int, o2: int, d2: int)
    ensures Weighted(o1, d1) > Weighted(o2, d2) <==> 10 * (o1 - o2) > 9 * (d2 - d1)
    ensures Weighted(o1, d1) > Weighted(o2, d2) <==> (o1 as real) + 0.9 * (d1 as real) > (o2 as real) + 0.9 * (d2 as real)
  {
  }

  /** A cell reaching a longer run (for either side) outranks one whose
      runs are both shorter. */
  lemma LongerThreatWins(a1: nat, b1: nat, a2: nat, b2: nat)
    requires Max(a1, b1) > Max(a2, b2)
    ensures Weighted(Pow10(a1), Pow10(b1)) > Weighted(Pow10(a2), Pow10(b2))
  {
    var m := Max(a2, b2);
    AtMostPow10(a2, m);
    AtMostPow10(b2, m);
    if a1 >= b1 {
      TenfoldBelow(m, a1);
      WeightedGap(Pow10(a1), Pow10(b1), Pow10(a2), Pow10(b2), Pow10(m), Pow10(a1));
    } else {
      TenfoldBelow(m, b1);
      WeightedGap(Pow10(a1), Pow10(b1), Pow10(a2), Pow10(b2), Pow10(m), Pow10(b1));
    }
  }

  /** A longer run is worth at least ten times as much. */
  lemma TenfoldBelow(m: nat, big: nat)
    requires m < big
    ensures 10 * Pow10(m) <= Pow10(big)
  {
    AtMostPow10(m + 1, big);
  }

  /** The arithmetic behind `LongerThreatWins`: a term of at least 9P beats
      two terms of at most P/10 each under the 10:9 weighting. */
  lemma WeightedGap(x1: nat, y1: nat, x2: nat, y2: nat, pm: nat, pbig: nat)
    requires x2 <= pm && y2 <= pm && 1 <= pm && 10 * pm <= pbig
    requires x1 == pbig || y1 == pbig
    ensures Weighted(x1, y1) > Weighted(x2, y2)
  {
  }

  lemma AtMostPow10(a: nat, b: nat)
    requires a <= b
    ensures Pow10(a) <= Pow10(b)
  {
    if a < b {
      Pow10Increasing(a, b);
    }
  }

  /** At an equal longest run, completing one's own run beats blocking the
      opponent's. */
  lemma OffenceBreaksTies(m: nat, b1: nat, a2: nat)
    requires b1 <= m && a2 < m
    ensures Weighted(Pow10(m), Pow10(b1)) > Weighted(Pow10(a2), Pow10(m))
  {
    Pow10Increasing(a2, m);
    assert Pow10(m) >= 10 * Pow10(a2) by {
      if a2 < m - 1 {
        Pow10Increasing(a2, m - 1);
      }
    }
  }

  /** An empty cell next to a stone: the cells the AI considers. */
  ghost predicate IsCandidate(b: seq<Cell>, size: int, j: int)
    requires size >= 1
  {
    0 <= j < |b| && b[j] == Empty && HasOccupiedNeighbor(b, size, j)
  }

  /** `i` is a candidate of maximal rank and no lower-indexed candidate
      reaches that rank. */
  ghost predicate IsBestCandidate(b: seq<Cell>, size: int, ai: Player, i: int)
    requires size >= 1 && |b| == size * size
  {
    && IsCandidate(b, size, i)
    && (forall j :: IsCandidate(b, size, j) ==> Combined(b, size, j, ai) <= Combined(b, size, i, ai))
    && (forall j :: IsCandidate(b, size, j) && j < i ==> Combined(b, size, j, ai) < Combined(b, size, i, ai))
  }

  predicate AllEmpty(b: seq<Cell>)
  {
    forall j :: 0 <= j < |b| ==> b[j] == Empty
  }

  function MoveIndex(size: int, m: AiMove): int
  {
    m.row * size + m.col
  }

  /** The opening cell the source computes, floor(size*size/2). */
  function OpeningIndexAsWritten(size: int): int
  {
    size * size / 2
  }

  /** The board's centre cell (floor(size/2), floor(size/2)). */
  function OpeningIndex(size: int): int
  {
    (size / 2) * size + size / 2
  }

  /** The source's opening index is a cell of the board. */
  lemma OpeningAsWrittenOnBoard(size: int)
    requires size >= 1
    ensures 0 <= OpeningIndexAsWritten(size) < size * size
    ensures MoveIndex(size, AiMove(OpeningIndexAsWritten(size) / size, OpeningIndexAsWritten(size) % size, "")) == OpeningIndexAsWritten(size)
  {
    MulAtLeast(size, size);
    DecodeInBounds(size, OpeningIndexAsWritten(size));
  }

  /** On an even board the source's opening index is the first cell of row
      size/2, not the centre: for size 4 it is 8 = (2, 0). */
  lemma OpeningAsWrittenOffCentre(size: int)
    requires size >= 2 && size % 2 == 0
    ensures OpeningIndexAsWritten(size) == Flat(size, size / 2, 0)
    ensures OpeningIndexAsWritten(size) % size == 0 != size / 2
  {
    var h := size / 2;
    assert size * size == 2 * (h * size);
    FlatDecode(size, h, 0);
  }

  lemma SizeFourOpeningAsWritten()
    ensures OpeningIndexAsWritten(4) == 8 && 8 / 4 == 2 && 8 % 4 == 0
    ensures OpeningIndex(4) == 10 && 10 / 4 == 2 && 10 % 4 == 2
  {
  }

  /** The corrected opening cell is the centre on every board, is on the
      board, and coincides with the source's floor(size*size/2) on the odd
      sizes the app uses. */
  lemma OpeningIndexIsCentre(size: int)
    requires size >= 1
    ensures 0 <= OpeningIndex(size) < size * size
    ensures OpeningIndex(size) / size == size / 2 && OpeningIndex(size) % size == size / 2
    ensures size % 2 == 1 ==> OpeningIndex(size) == OpeningIndexAsWritten(size)
  {
    var h := size / 2;
    FlatInBounds(size, h, h);
    FlatDecode(size, h, h);
    if size % 2 == 1 {
      assert size == 2 * h + 1;
      assert size * size == 2 * (h * size + h) + 1;
    }
  }

  /** The app's 15×15 board opens at index 112, row 7, column 7. */
  lemma FifteenOpening(size: int)
    requires size == 15
    ensures OpeningIndex(size) == 112 == OpeningIndexAsWritten(size)
    ensures 112 / size == 7 && 112 % size == 7
  {
  }

  /** `getClassicAIMove(board, size, aiPlayer)`. The random fallback is a
      nondeterministic choice of an empty cell; the source needs one (on a
      full board it indexes an empty list). */
  method GetClassicAiMove(board: array<Cell>, size: int, aiPlayer: Player) returns (move: AiMove)
    requires size >= 1 && board.Length == size * size
    requires exists j :: 0 <= j < board.Length && board[j] == Empty
    ensures 0 <= move.col < size && 0 <= MoveIndex(size, move) < board.Length
    ensures board[MoveIndex(size, move)] == Empty
    ensures AllEmpty(board[..]) ==>
      move.row == OpeningIndexAsWritten(size) / size && move.col == OpeningIndexAsWritten(size) % size
      && MoveIndex(size, move) == OpeningIndexAsWritten(size) && move.thought == OpeningThought
    ensures AllEmpty(board[..]) && size % 2 == 1 ==> move.row == size / 2 && move.col == size / 2
    ensures !AllEmpty(board[..]) ==> move.thought == HeuristicThought
    ensures (exists j :: IsCandidate(board[..], size, j)) ==>
      IsBestCandidate(board[..], size, aiPlayer, MoveIndex(size, move))
  {
    var emptyCells := CollectCandidates(board, size);

    if |emptyCells| == 0 && AllEmpty(board[..]) {
      var center := OpeningIndexAsWritten(size);
      OpeningAsWrittenOnBoard(size);
      OpeningIndexIsCentre(size);
      return AiMove(center / size, center % size, OpeningThought);
    }

    var bestIndex := PickBest(board, size, aiPlayer, emptyCells);

    if bestIndex == -1 {
      bestIndex :| 0 <= bestIndex < board.Length && board[bestIndex] == Empty;
    } else {
      BestOfCandidates(board[..], size, aiPlayer, emptyCells, bestIndex);
    }
    DecodeInBounds(size, bestIndex);
    move := AiMove(bestIndex / size, bestIndex % size, HeuristicThought);
  }

  /** The best entry of the full, ascending candidate list is the best
      candidate of the board. */
  lemma BestOfCandidates(b: seq<Cell>, size: int, ai: Player, cells: seq<int>, best: int)
    requires size >= 1 && |b| == size * size
    requires forall t :: 0 <= t < |cells| ==> 0 <= cells[t] < |b| && IsCandidate(b, size, cells[t])
    requires forall j :: IsCandidate(b, size, j) ==> j in cells
    requires best in cells && IsCandidate(b, size, best)
    requires forall t :: 0 <= t < |cells| ==> Combined(b, size, cells[t], ai) <= Combined(b, size, best, ai)
    requires forall t :: 0 <= t < |cells| && cells[t] < best ==> Combined(b, size, cells[t], ai) < Combined(b, size, best, ai)
    ensures IsBestCandidate(b, size, ai, best)
  {
    forall j | IsCandidate(b, size, j)
      ensures Combined(b, size, j, ai) <= Combined(b, size, best, ai)
      ensures j < best ==> Combined(b, size, j, ai) < Combined(b, size, best, ai)
    {
      var t :| 0 <= t < |cells| && cells[t] == j;
    }
  }

  /** The candidate loop of `getClassicAIMove`: the empty cells with an
      occupied neighbour, in ascending index order. */
  method CollectCandidates(board: array<Cell>, size: int) returns (emptyCells: seq<int>)
    requires size >= 1 && board.Length == size * size
    ensures forall t :: 0 <= t < |emptyCells| ==> IsCandidate(board[..], size, emptyCells[t])
    ensures forall t, u :: 0 <= t < u < |emptyCells| ==> emptyCells[t] < emptyCells[u]
    ensures forall j :: IsCandidate(board[..], size, j) ==> j in emptyCells
  {
    emptyCells := [];
    for i := 0 to board.Length
      invariant forall t :: 0 <= t < |emptyCells| ==> IsCandidate(board[..], size, emptyCells[t]) && emptyCells[t] < i
      invariant forall t, u :: 0 <= t < u < |emptyCells| ==> emptyCells[t] < emptyCells[u]
      invariant forall j :: 0 <= j < i && IsCandidate(board[..], size, j) ==> j in emptyCells
    {
      if board[i] == Empty {
        var near := HasNeighbor(i, board, size);
        if near {
          emptyCells := emptyCells + [i];
        }
      }
    }
  }

  /** The scoring loop of `getClassicAIMove`: the first candidate (in list
      order) whose weighted score beats every earlier one strictly, starting
      from the scaled initial best of -1; -1 when there is no candidate. */
  method PickBest(board: array<Cell>, size: int, aiPlayer: Player, emptyCells: seq<int>) returns (bestIndex: int)
    requires size >= 1 && board.Length == size * size
    requires forall t :: 0 <= t < |emptyCells| ==> 0 <= emptyCells[t] < board.Length
    requires forall t, u :: 0 <= t < u < |emptyCells| ==> emptyCells[t] < emptyCells[u]
    ensures |emptyCells| == 0 ==> bestIndex == -1
    ensures |emptyCells| > 0 ==> bestIndex in emptyCells
    ensures forall t :: 0 <= t < |emptyCells| ==>
      Combined(board[..], size, emptyCells[t], aiPlayer) <= Combined(board[..], size, bestIndex, aiPlayer)
    ensures forall t :: 0 <= t < |emptyCells| && emptyCells[t] < bestIndex ==>
      Combined(board[..], size, emptyCells[t], aiPlayer) < Combined(board[..], size, bestIndex, aiPlayer)
  {
    var opponent := Other(aiPlayer);
    ghost var b := board[..];
    ghost var ranks := Ranks(b, size, emptyCells, aiPlayer);
    var bestScore := -10;
    bestIndex := -1;
    ghost var bestPos := -1;
    for k := 0 to |emptyCells|
      invariant board[..] == b
      invariant Leading(ranks, k, bestPos, bestScore)
      invariant if k == 0 then bestIndex == -1 else bestIndex == emptyCells[bestPos]
    {
      var index := emptyCells[k];
      var currentScore := RankCandidate(index, aiPlayer, opponent, board, size);
      assert currentScore == ranks[k];
      if currentScore > bestScore {
        TakeLead(ranks, k, bestPos, bestScore);
        bestIndex, bestScore := index, currentScore;
        bestPos := k;
      } else {
        KeepLead(ranks, k, bestPos, bestScore);
      }
    }
    forall t | 0 <= t < |emptyCells| && emptyCells[t] < bestIndex
      ensures ranks[t] < bestScore
    {
      AscendingPosition(emptyCells, t, bestPos);
    }
  }

  /** After the first k rankings, position bestPos holds the first of the
      largest values seen so far (-1 and the sentinel -10 before any). */
  ghost predicate Leading(ranks: seq<int>, k: int, bestPos: int, bestScore: int)
  {
    0 <= k <= |ranks| &&
    (k == 0 ==> bestPos == -1 && bestScore == -10) &&
    (k > 0 ==> 0 <= bestPos < k && bestScore == ranks[bestPos]) &&
    (forall t :: 0 <= t < k ==> ranks[t] <= bestScore) &&
    (forall t :: 0 <= t < bestPos ==> ranks[t] < bestScore)
  }

  /** A strictly larger ranking takes the lead. */
  lemma TakeLead(ranks: seq<int>, k: int, bestPos: int, bestScore: int)
    requires Leading(ranks, k, bestPos, bestScore) && k < |ranks| && ranks[k] > bestScore
    ensures Leading(ranks, k + 1, k, ranks[k])
  {
  }

  /** A ranking that is not larger leaves the lead where it is. */
  lemma KeepLead(ranks: seq<int>, k: int, bestPos: int, bestScore: int)
    requires Leading(ranks, k, bestPos, bestScore) && k < |ranks| && ranks[k] <= bestScore
    requires ranks[k] >= 0
    ensures Leading(ranks, k + 1, bestPos, bestScore)
  {
  }

  /** The ranking value of every listed candidate, in list order. */
  ghost function Ranks(b: seq<Cell>, size: int, cells: seq<int>, ai: Player): (ranks: seq<int>)
    requires size >= 1 && |b| == size * size
    requires forall t :: 0 <= t < |cells| ==> 0 <= cells[t] < |b|
    ensures |ranks| == |cells|
    ensures forall t :: 0 <= t < |cells| ==> ranks[t] == Combined(b, size, cells[t], ai)
  {
    seq(|cells|, t requires 0 <= t < |cells| => Combined(b, size, cells[t], ai))
  }

  /** In an ascending list a smaller entry sits at an earlier position. */
  lemma AscendingPosition(s: seq<int>, t: int, p: int)
    requires forall i, j :: 0 <= i < j < |s| ==> s[i] < s[j]
    requires 0 <= t < |s| && 0 <= p < |s| && s[t] < s[p]
    ensures t < p
  {
  }

  /** The weighted score of one candidate: the AI's own score plus 0.9
      times the opponent's (both scaled by ten). */
  method RankCandidate(index: int, aiPlayer: Player, opponent: Player, board: array<Cell>, size: int)
    returns (currentScore: int)
    requires size >= 1 && board.Length == size * size && 0 <= index < board.Length
    requires opponent == Other(aiPlayer)
    ensures currentScore == Combined(board[..], size, index, aiPlayer)
  {
    var offensiveScore := GetScoreForMove(index, aiPlayer, board, size);
    var defensiveScore := GetScoreForMove(index, opponent, board, size);
    currentScore := Weighted(offensiveScore, defensiveScore);
  }

  /** Walking one king move at a time from a stone towards an empty cell
      meets an empty cell next to a stone. */
  lemma {:induction false} CandidateOnTheWay(b: seq<Cell>, size: int, j: int, e: int)
    requires size >= 1 && |b| == size * size && 0 <= j < |b| && 0 <= e < |b|
    requires b[j] != Empty && b[e] == Empty
    ensures exists n :: IsCandidate(b, size, n)
    decreases (if j / size < e / size then e / size - j / size else j / size - e / size)
      + (if j % size < e % size then e % size - j % size else j % size - e % size)
  {
    DecodeInBounds(size, j);
    DecodeInBounds(size, e);
    var rj, cj, re, ce := j / size, j % size, e / size, e % size;
    var nr, nc :=
      if cj < ce then rj else if cj > ce then rj else if rj < re then rj + 1 else rj - 1,
      if cj < ce then cj + 1 else if cj > ce then cj - 1 else cj;
    FlatInBounds(size, nr, nc);
    FlatDecode(size, nr, nc);
    var n := Flat(size, nr, nc);
    if b[n] == Empty {
      assert Adjacent(size, n, j) && b[j] != Empty;
      assert IsCandidate(b, size, n);
    } else {
      CandidateOnTheWay(b, size, n, e);
    }
  }

  /** On a board with a stone and an empty cell the candidate list is not
      empty, so the random fallback is never taken. */
  lemma CandidateExists(b: seq<Cell>, size: int)
    requires size >= 1 && |b| == size * size
    requires exists e :: 0 <= e < |b| && b[e] == Empty
    requires !AllEmpty(b)
    ensures exists n :: IsCandidate(b, size, n)
  {
    var e :| 0 <= e < |b| && b[e] == Empty;
    var j :| 0 <= j < |b| && b[j] != Empty;
    CandidateOnTheWay(b, size, j, e);
  }
}
