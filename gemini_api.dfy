/** The pure parts of the server function api/getGeminiMove: the text form
    of the board that goes into the language-model prompt, and the check of
    the move the model proposes before it is sent back to the browser. */
module GeminiApi {
  import opened Board

  // ---------------------------------------------------------------------------
  // boardToString
  // ---------------------------------------------------------------------------

  /** The character of one cell: `'.'` for an empty cell, else the letter. */
  function CellChar(c: Cell): (ch: char)
    ensures ch == '.' <==> c == Empty
    ensures c == Mark(X) <==> ch == 'X'
    ensures c == Mark(O) <==> ch == 'O'
  {
    match c
    case Empty => '.'
    case Mark(X) => 'X'
    case Mark(O) => 'O'
  }

  /** The text appended for board index `i`: the cell's character, or the
      word `undefined` that string concatenation produces for an index
      past the end of a short board. */
  function CellText(b: seq<Cell>, i: int): (t: string)
    ensures |t| == 1 <==> 0 <= i < |b|
    ensures 0 <= i < |b| ==> (t[0] == '.' <==> b[i] == Empty)
  {
    if 0 <= i < |b| then [CellChar(b[i])] else "undefined"
  }

  /** The first `c` cells of the row that starts at index `start`, as the
      inner loop appends them. */
  function RowText(b: seq<Cell>, start: int, c: int): string
    decreases c
  {
    if c <= 0 then "" else RowText(b, start, c - 1) + CellText(b, start + c - 1)
  }

  /** The first `r` rows, each followed by a newline, before trimming. */
  function Grid(b: seq<Cell>, size: int, r: int): string
    decreases r
  {
    if r <= 0 then "" else Grid(b, size, r - 1) + RowText(b, (r - 1) * size, size) + "\n"
  }

  /** The characters JavaScript's `String.prototype.trim` removes: white
      space and line terminators. */
  predicate IsWhitespace(ch: char)
  {
    || ch == '\t' || ch == '\n' || ch == '\U{000B}' || ch == '\U{000C}' || ch == '\r' || ch == ' '
    || ch == '\U{00A0}' || ch == '\U{1680}' || ('\U{2000}' <= ch <= '\U{200A}')
    || ch == '\U{2028}' || ch == '\U{2029}' || ch == '\U{202F}' || ch == '\U{205F}'
    || ch == '\U{3000}' || ch == '\U{FEFF}'
  }

  /** `s` without its trailing white space. */
  function TrimEnd(s: string): (t: string)
    ensures |t| <= |s| && t == s[..|t|]
    ensures |t| > 0 ==> !IsWhitespace(t[|t| - 1])
    ensures forall i :: |t| <= i < |s| ==> IsWhitespace(s[i])
    decreases |s|
  {
    if |s| > 0 && IsWhitespace(s[|s| - 1]) then TrimEnd(s[..|s| - 1]) else s
  }

  /** `s` without its leading white space. */
  function TrimStart(s: string): (t: string)
    ensures |t| <= |s| && t == s[|s| - |t|..]
    ensures |t| > 0 ==> !IsWhitespace(t[0])
    ensures forall i :: 0 <= i < |s| - |t| ==> IsWhitespace(s[i])
    decreases |s|
  {
    if |s| > 0 && IsWhitespace(s[0]) then TrimStart(s[1..]) else s
  }

  /** `s.trim()`. */
  function Trim(s: string): (t: string)
    ensures |t| <= |s|
    ensures |t| > 0 ==> !IsWhitespace(t[0]) && !IsWhitespace(t[|t| - 1])
    ensures |s| > 0 && !IsWhitespace(s[0]) && !IsWhitespace(s[|s| - 1]) ==> t == s
  {
    TrimStart(TrimEnd(s))
  }

  /** Trimming a text that starts and ends with a visible character and is
      followed by one newline removes exactly that newline. */
  lemma TrimFinalNewline(t: string)
    requires |t| > 0 && !IsWhitespace(t[0]) && !IsWhitespace(t[|t| - 1])
    ensures Trim(t + "\n") == t
  {
    assert (t + "\n")[..|t|] == t;
    assert TrimEnd(t + "\n") == TrimEnd(t);
  }

  /** `boardToString(board, size)`: row after row of cell characters, a
      newline after each row, and the whole text trimmed. */
  method BoardToString(board: seq<Cell>, size: int) returns (text: string)
    ensures text == Trim(Grid(board, size, size))
  {
    var boardString := "";
    var r := 0;
    while r < size
      invariant 0 <= r && (r <= size || r == 0)
      invariant boardString == Grid(board, size, r)
    {
      boardString := AppendRow(boardString, board, size, r);
      GridStep(board, size, r);
      boardString := boardString + "\n";
      r := r + 1;
    }
    if size < 0 {
      assert Grid(board, size, size) == "" == Grid(board, size, r);
    } else {
      assert r == size;
    }
    text := Trim(boardString);
  }

  /** The inner loop of `boardToString`: the characters of row `r`
      appended one cell at a time. */
  method AppendRow(prefix: string, board: seq<Cell>, size: int, r: int) returns (boardString: string)
    ensures boardString == prefix + RowText(board, r * size, size)
  {
    boardString := prefix;
    var start := r * size;
    var c := 0;
    while c < size
      invariant 0 <= c && (c <= size || c == 0)
      invariant boardString == prefix + RowText(board, start, c)
    {
      var cell := CellText(board, start + c);
      RowStep(board, start, c);
      boardString := boardString + cell;
      c := c + 1;
    }
    if size < 0 {
      assert RowText(board, start, size) == "" == RowText(board, start, c);
    } else {
      assert c == size;
    }
  }

  /** One more row of the text. */
  lemma GridStep(b: seq<Cell>, size: int, r: int)
    requires r >= 0
    ensures Grid(b, size, r + 1) == Grid(b, size, r) + RowText(b, r * size, size) + "\n"
  {
  }

  /** One more cell of a row. */
  lemma RowStep(b: seq<Cell>, start: int, c: int)
    requires c >= 0
    ensures RowText(b, start, c + 1) == RowText(b, start, c) + CellText(b, start + c)
  {
  }

  /** Row text for `c` on-board cells is `c` characters long. */
  lemma {:induction false} RowTextLength(b: seq<Cell>, start: int, c: int)
    requires 0 <= start && 0 <= c && start + c <= |b|
    ensures |RowText(b, start, c)| == c
    decreases c
  {
    if c > 0 {
      RowTextLength(b, start, c - 1);
    }
  }

  /** Row text for `c` on-board cells is one character per cell. */
  lemma {:induction false} RowTextCells(b: seq<Cell>, start: int, c: int)
    requires 0 <= start && 0 <= c && start + c <= |b|
    ensures |RowText(b, start, c)| == c
    ensures forall j :: 0 <= j < c ==> RowText(b, start, c)[j] == CellChar(b[start + j])
    decreases c
  {
    if c > 0 {
      RowTextCells(b, start, c - 1);
    }
  }

  /** Row r of an N×N board spans indices r*N up to r*N + N - 1. */
  lemma RowFits(size: int, r: int)
    requires 0 <= r < size
    ensures 0 <= r * size && r * size + size <= size * size
  {
    FlatInBounds(size, r, 0);
    FlatInBounds(size, r, size - 1);
  }

  /** Every on-board row is `size` characters. */
  lemma RowLength(b: seq<Cell>, size: int, r: int)
    requires 0 <= r < size && |b| == size * size
    ensures |RowText(b, r * size, size)| == size
  {
    RowFits(size, r);
    RowTextLength(b, r * size, size);
  }

  /** Before trimming, the first `n` rows take `size + 1` characters each. */
  lemma {:induction false} GridLength(b: seq<Cell>, size: int, n: int)
    requires 0 <= n <= size && |b| == size * size
    ensures |Grid(b, size, n)| == n * (size + 1)
    decreases n
  {
    if n > 0 {
      var m := n - 1;
      GridLength(b, size, m);
      GridStepLength(b, size, m);
      MulStep(m, size + 1);
      assert |Grid(b, size, m + 1)| == m * (size + 1) + size + 1;
    }
  }

  /** Each on-board row adds its `size` characters and a newline. */
  lemma GridStepLength(b: seq<Cell>, size: int, i: int)
    requires 0 <= i < size && |b| == size * size
    ensures |Grid(b, size, i + 1)| == |Grid(b, size, i)| + size + 1
  {
    RowLength(b, size, i);
  }

  /** Position of column c of line r in the text: each line is `size`
      characters and a separator. */
  function Pos(size: int, r: int, c: int): int
  {
    r * (size + 1) + c
  }

  /** Before trimming, position c of row r holds the cell's character and
      position `size` of row r holds the newline. */
  lemma GridCharAt(b: seq<Cell>, size: int, n: int, r: int, c: int)
    requires 0 <= r < n <= size && 0 <= c <= size && |b| == size * size
    ensures 0 <= Pos(size, r, c) < |Grid(b, size, n)|
    ensures Grid(b, size, n)[Pos(size, r, c)] == if c < size then CellChar(CellAt(b, size, r, c)) else '\n'
  {
    GridLastRow(b, size, r, c);
    GridPrefix(b, size, r + 1, n);
  }

  /** The text of the first k rows begins the text of the first n. */
  lemma {:induction false} GridPrefix(b: seq<Cell>, size: int, k: int, n: int)
    requires 0 <= k <= n <= size && |b| == size * size
    ensures Grid(b, size, k) <= Grid(b, size, n)
    decreases n
  {
    if k < n {
      var m := n - 1;
      GridPrefix(b, size, k, m);
      GridExtends(b, size, m);
      assert Grid(b, size, n) == Grid(b, size, m + 1);
      PrefixTransitive(Grid(b, size, k), Grid(b, size, m), Grid(b, size, n));
    }
  }

  lemma PrefixTransitive(s: string, t: string, u: string)
    requires s <= t && t <= u
    ensures s <= u
  {
  }

  /** Adding a row keeps the text of the earlier rows. */
  lemma GridExtends(b: seq<Cell>, size: int, m: int)
    requires 0 <= m < size && |b| == size * size
    ensures Grid(b, size, m) <= Grid(b, size, m + 1)
  {
    assert Grid(b, size, m + 1) == Grid(b, size, m) + (RowText(b, m * size, size) + "\n");
  }

  /** The last of the first r + 1 rows: its cells, then its newline. */
  lemma GridLastRow(b: seq<Cell>, size: int, r: int, c: int)
    requires 0 <= r < size && |b| == size * size && 0 <= c <= size
    ensures 0 <= Pos(size, r, c) < |Grid(b, size, r + 1)|
    ensures Grid(b, size, r + 1)[Pos(size, r, c)] == if c < size then CellChar(CellAt(b, size, r, c)) else '\n'
  {
    GridLength(b, size, r);
    RowFits(size, r);
    var start := r * size;
    var g, row := Grid(b, size, r), RowText(b, start, size);
    RowTextCells(b, start, size);
    RowAfter(b, g, row, start, size, c);
    assert Grid(b, size, r + 1) == g + row + "\n";
    assert Pos(size, r, c) == |g| + c;
    if c < size {
      assert Flat(size, r, c) == start + c;
    }
  }

  /** After the earlier rows come the row's cell characters and then the
      newline. */
  lemma RowAfter(b: seq<Cell>, g: string, row: string, start: int, size: int, c: int)
    requires 0 <= start && start + size <= |b| && 0 <= c <= size
    requires |row| == size && forall j :: 0 <= j < size ==> row[j] == CellChar(b[start + j])
    ensures |g| + c < |g + row + "\n"|
    ensures (g + row + "\n")[|g| + c] == if c < size then CellChar(b[start + c]) else '\n'
  {
  }

  /** Position c of row r lies before the rows from r + 1 on. */
  lemma RowSlot(r: int, c: int, n: int, size: int)
    requires 0 <= r < n && 0 <= c <= size
    ensures 0 <= Pos(size, r, c) < n * (size + 1)
    ensures r < n - 1 ==> Pos(size, r, c) < (n - 1) * (size + 1)
  {
    MulMonotone(r + 1, n, size + 1);
    if r < n - 1 {
      MulMonotone(r + 1, n - 1, size + 1);
    }
  }

  /** Trimming the full-size text drops exactly its final newline. */
  lemma TrimmedGrid(b: seq<Cell>, size: int)
    requires size >= 1 && |b| == size * size
    ensures |Grid(b, size, size)| == size * (size + 1)
    ensures Trim(Grid(b, size, size)) == Grid(b, size, size)[..size * (size + 1) - 1]
  {
    GridLength(b, size, size);
    GridCharAt(b, size, size, 0, 0);
    GridCharAt(b, size, size, size - 1, size - 1);
    GridCharAt(b, size, size, size - 1, size);
    LastPositions(size);
    VisibleCell(CellAt(b, size, 0, 0));
    VisibleCell(CellAt(b, size, size - 1, size - 1));
    TrimDropsNewline(Grid(b, size, size));
  }

  /** The last two positions of the untrimmed text: the last cell and the
      newline after it. */
  lemma LastPositions(size: int)
    requires size >= 1
    ensures Pos(size, 0, 0) == 0
    ensures Pos(size, size - 1, size) == size * (size + 1) - 1
    ensures Pos(size, size - 1, size - 1) == size * (size + 1) - 2
  {
  }

  /** Cell characters are never white space. */
  lemma VisibleCell(c: Cell)
    ensures !IsWhitespace(CellChar(c))
  {
  }

  /** A text that starts with and ends in a visible character before one
      newline loses exactly that newline to trimming. */
  lemma TrimDropsNewline(g: string)
    requires |g| >= 2 && g[|g| - 1] == '\n' && !IsWhitespace(g[0]) && !IsWhitespace(g[|g| - 2])
    ensures Trim(g) == g[..|g| - 1]
  {
    var t := g[..|g| - 1];
    assert g == t + "\n";
    TrimFinalNewline(t);
  }

  /** After trimming, the character of column c of line r, or the separator
      after line r when c == size and r is not the last line. */
  lemma TextCharAt(b: seq<Cell>, size: int, r: int, c: int)
    requires |b| == size * size && 0 <= r < size && 0 <= c <= size && (c < size || r < size - 1)
    ensures 0 <= Pos(size, r, c) < |Trim(Grid(b, size, size))|
    ensures Trim(Grid(b, size, size))[Pos(size, r, c)] == if c < size then CellChar(CellAt(b, size, r, c)) else '\n'
  {
    TrimmedGrid(b, size);
    GridCharAt(b, size, size, r, c);
    if c < size {
      LastRowSlot(r, c, size);
    } else {
      RowSlot(r, c, size, size);
      MulStep(size - 1, size + 1);
    }
  }

  /** A cell position is before the final newline. */
  lemma LastRowSlot(r: int, c: int, size: int)
    requires 0 <= r < size && 0 <= c < size
    ensures Pos(size, r, c) < size * (size + 1) - 1
  {
    MulMonotone(r, size - 1, size + 1);
  }

  /** The text sent to the model for a full-size board: `size` lines of
      `size` cell characters separated by single newlines, nothing after
      the last line, and nothing at all for a board of size 0. */
  lemma BoardTextLayout(b: seq<Cell>, size: int)
    requires size >= 0 && |b| == size * size
    ensures size == 0 ==> Trim(Grid(b, size, size)) == ""
    ensures size >= 1 ==> |Trim(Grid(b, size, size))| == size * size + size - 1
    ensures forall r, c :: 0 <= r < size && 0 <= c < size ==>
      0 <= Pos(size, r, c) < |Trim(Grid(b, size, size))|
      && Trim(Grid(b, size, size))[Pos(size, r, c)] == CellChar(CellAt(b, size, r, c))
    ensures forall r :: 0 <= r < size - 1 ==>
      0 <= Pos(size, r, size) < |Trim(Grid(b, size, size))| && Trim(Grid(b, size, size))[Pos(size, r, size)] == '\n'
  {
    if size >= 1 {
      TrimmedGrid(b, size);
    }
    forall r, c | 0 <= r < size && 0 <= c < size
      ensures 0 <= Pos(size, r, c) < |Trim(Grid(b, size, size))|
      ensures Trim(Grid(b, size, size))[Pos(size, r, c)] == CellChar(CellAt(b, size, r, c))
    {
      TextCharAt(b, size, r, c);
    }
    forall r | 0 <= r < size - 1
      ensures 0 <= Pos(size, r, size) < |Trim(Grid(b, size, size))|
      ensures Trim(Grid(b, size, size))[Pos(size, r, size)] == '\n'
    {
      TextCharAt(b, size, r, size);
    }
  }

  // ---------------------------------------------------------------------------
  // The check of the model's proposal
  // ---------------------------------------------------------------------------

  /** The thought sent when the model gives none. */
  const DefaultThought: string := "A strategic move."

  /** The parsed model reply: `row` and `col` when they are numbers (`None`
      for a missing or non-numeric field), and the thought (`""` when it is
      missing). */
  datatype Proposal = Proposal(row: Option<int>, col: Option<int>, thought: string)

  /** The HTTP reply: status 200 with a move and a thought, or an error
      status with its message. */
  datatype Reply = Accepted(row: int, col: int, thought: string) | Rejected(status: int, error: string)

  /** The source's validity test: on the board and on an empty cell (an
      index past the end of a short board reads as `undefined`, which is not
      `null`). */
  predicate OnEmptyCell(board: seq<Cell>, size: int, row: int, col: int)
  {
    && 0 <= row < size && 0 <= col < size
    && 0 <= row * size + col < |board| && board[row * size + col] == Empty
  }

  /** The reply built from a parsed model answer (`None` for a `null`
      answer). */
  function ValidateProposal(board: seq<Cell>, size: int, parsed: Option<Proposal>): (reply: Reply)
    ensures reply.Accepted? <==>
      parsed.Some? && parsed.value.row.Some? && parsed.value.col.Some?
      && OnEmptyCell(board, size, parsed.value.row.value, parsed.value.col.value)
    ensures reply.Accepted? ==>
      reply.row == parsed.value.row.value && reply.col == parsed.value.col.value
      && reply.thought == (if parsed.value.thought == "" then DefaultThought else parsed.value.thought)
      && reply.thought != ""
    ensures reply.Rejected? ==>
      (reply.status == 400 && reply.error == "Invalid move from AI"
       <==> parsed.Some? && parsed.value.row.Some? && parsed.value.col.Some?)
    ensures reply.Rejected? ==> reply.status == 400 || reply.status == 500
  {
    if parsed.Some? && parsed.value.row.Some? && parsed.value.col.Some? then
      var p := parsed.value;
      if OnEmptyCell(board, size, p.row.value, p.col.value) then
        Accepted(p.row.value, p.col.value, if p.thought == "" then DefaultThought else p.thought)
      else
        Rejected(400, "Invalid move from AI")
    else
      Rejected(500, "Failed to get valid move from AI")
  }

  /** On a full-size board the index test is implied by the row and column
      tests: a numeric proposal is accepted exactly when its (row, column)
      names an empty cell of the board. */
  lemma AcceptIffEmptyCell(board: seq<Cell>, size: int, row: int, col: int, thought: string)
    requires |board| == size * size
    ensures ValidateProposal(board, size, Some(Proposal(Some(row), Some(col), thought))).Accepted? <==>
      (0 <= row < size && 0 <= col < size && CellAt(board, size, row, col) == Empty)
  {
    if 0 <= row < size && 0 <= col < size {
      FlatInBounds(size, row, col);
    }
  }
}
