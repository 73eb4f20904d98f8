/** The game state held by App.tsx: the board, whose turn it is, whether the
    game is still running, the result, the line that won and the running
    scores. The handlers that change it are the click handler, the
    application of an AI move, the restart button and the win/draw test
    they share. */
module Game {
  import opened Board
  import opened WinningLines
  import opened ClassicAi
  import opened GeminiApi

  /** Who plays a colour. */
  datatype PlayerType = Human | Classic | Gemini

  /** The source's `winner`: `null`, a player's letter, or `'Draw'`. */
  datatype Outcome = NoWinner | Won(player: Player) | Draw

  // ---------------------------------------------------------------------------
  // The win/draw test as functions of a board and a list of conditions
  // ---------------------------------------------------------------------------

  /** One condition of `checkWinner`: its first cell holds a stone and every
      listed cell holds the same stone (an index off the board reads as
      `undefined`, which matches nothing). */
  predicate Matches(b: seq<Cell>, line: seq<int>): (m: bool)
    ensures m <==> |line| > 0 && exists p :: forall i :: 0 <= i < |line| ==> 0 <= line[i] < |b| && b[line[i]] == Mark(p)
  {
    && |line| > 0
    && 0 <= line[0] < |b|
    && b[line[0]] != Empty
    && forall i :: 0 <= i < |line| ==> 0 <= line[i] < |b| && b[line[i]] == b[line[0]]
  }

  /** The player whose stones fill a matching condition. */
  function LineOwner(b: seq<Cell>, line: seq<int>): (p: Player)
    requires Matches(b, line)
    ensures forall i :: 0 <= i < |line| ==> b[line[i]] == Mark(p)
  {
    b[line[0]].owner
  }

  /** Position of the first matching condition at or after `from`. */
  function FirstMatch(b: seq<Cell>, conds: seq<seq<int>>, from: nat): (r: Option<nat>)
    ensures r.Some? ==> from <= r.value < |conds| && Matches(b, conds[r.value])
    decreases |conds| - from
  {
    if from >= |conds| then None
    else if Matches(b, conds[from]) then Some(from)
    else FirstMatch(b, conds, from + 1)
  }

  /** What `checkWinner` decides for a board: the owner of the first matching
      condition, else a draw on a full board, else no result yet. */
  function Verdict(b: seq<Cell>, conds: seq<seq<int>>): (v: Outcome)
    ensures v.Won? ==> exists m :: 0 <= m < |conds| && Matches(b, conds[m]) && LineOwner(b, conds[m]) == v.player
    ensures v == Draw ==> Empty !in b
    ensures v == NoWinner ==> Empty in b
  {
    match FirstMatch(b, conds, 0)
    case Some(m) => Won(LineOwner(b, conds[m]))
    case None => if Empty in b then NoWinner else Draw
  }

  /** The condition `checkWinner` highlights: the first matching one, if any. */
  function VerdictLine(b: seq<Cell>, conds: seq<seq<int>>): (line: seq<int>)
    ensures line != [] <==> Verdict(b, conds).Won?
    ensures line != [] ==> line in conds && Matches(b, line)
  {
    match FirstMatch(b, conds, 0)
    case Some(m) => conds[m]
    case None => []
  }

  /** One point for the winner of a game. */
  function Credit(o: Outcome, p: Player): nat
  {
    if o == Won(p) then 1 else 0
  }

  /** Nothing before the first match matches, and there is no match at all
      exactly when the scan finds none. */
  lemma {:induction false} FirstMatchIsFirst(b: seq<Cell>, conds: seq<seq<int>>, from: nat)
    ensures FirstMatch(b, conds, from).Some? ==>
      forall j :: from <= j < FirstMatch(b, conds, from).value ==> !Matches(b, conds[j])
    ensures FirstMatch(b, conds, from).None? <==>
      forall j :: from <= j < |conds| ==> !Matches(b, conds[j])
    decreases |conds| - from
  {
    if from < |conds| && !Matches(b, conds[from]) {
      FirstMatchIsFirst(b, conds, from + 1);
    }
  }

  /** The scan stops at a matching condition with no match before it. */
  lemma {:induction false} FirstMatchAt(b: seq<Cell>, conds: seq<seq<int>>, from: nat, m: nat)
    requires from <= m < |conds| && Matches(b, conds[m])
    requires forall j :: from <= j < m ==> !Matches(b, conds[j])
    ensures FirstMatch(b, conds, from) == Some(m)
    decreases m - from
  {
    if from < m {
      FirstMatchAt(b, conds, from + 1, m);
    }
  }

  /** A player wins exactly when some condition is filled with their stones
      and no earlier condition matches. */
  lemma VerdictWonIff(b: seq<Cell>, conds: seq<seq<int>>, p: Player)
    ensures Verdict(b, conds) == Won(p) <==>
      exists m :: 0 <= m < |conds| && Matches(b, conds[m]) && LineOwner(b, conds[m]) == p
        && forall j :: 0 <= j < m ==> !Matches(b, conds[j])
  {
    FirstMatchIsFirst(b, conds, 0);
    if exists m :: 0 <= m < |conds| && Matches(b, conds[m]) && LineOwner(b, conds[m]) == p
        && forall j :: 0 <= j < m ==> !Matches(b, conds[j])
    {
      var m :| 0 <= m < |conds| && Matches(b, conds[m]) && LineOwner(b, conds[m]) == p
        && forall j :: 0 <= j < m ==> !Matches(b, conds[j]);
      FirstMatchAt(b, conds, 0, m);
    }
  }

  /** A draw is declared exactly when no condition matches and no cell is
      empty. */
  lemma VerdictDrawIff(b: seq<Cell>, conds: seq<seq<int>>)
    ensures Verdict(b, conds) == Draw <==>
      (forall j :: 0 <= j < |conds| ==> !Matches(b, conds[j])) && Empty !in b
  {
    FirstMatchIsFirst(b, conds, 0);
  }

  /** The game goes on exactly when no condition matches and some cell is
      empty. */
  lemma VerdictNoWinnerIff(b: seq<Cell>, conds: seq<seq<int>>)
    ensures Verdict(b, conds) == NoWinner <==>
      (forall j :: 0 <= j < |conds| ==> !Matches(b, conds[j])) && Empty in b
  {
    FirstMatchIsFirst(b, conds, 0);
  }

  /** The highlighted line of a win is a condition filled with the winner's
      stones; without a win nothing is highlighted. */
  lemma VerdictLineFilled(b: seq<Cell>, conds: seq<seq<int>>)
    ensures Verdict(b, conds).Won? ==>
      VerdictLine(b, conds) in conds
      && forall i :: 0 <= i < |VerdictLine(b, conds)| ==>
        0 <= VerdictLine(b, conds)[i] < |b| && b[VerdictLine(b, conds)[i]] == Mark(Verdict(b, conds).player)
    ensures !Verdict(b, conds).Won? ==> VerdictLine(b, conds) == []
  {
  }

  /** With the generated conditions, a win is k stones of one player on
      consecutive cells of one row, column or diagonal. */
  lemma WinIsStraightRun(b: seq<Cell>, size: int, k: int)
    requires size >= 1 && |b| == size * size
    requires Verdict(b, Lines(size, k)).Won?
    ensures var line := VerdictLine(b, Lines(size, k));
      |line| == Span(k) && k >= 1
      && (exists d :: Straight(size, d, line))
      && forall i :: 0 <= i < |line| ==> b[line[i]] == Mark(Verdict(b, Lines(size, k)).player)
  {
    var m := FirstMatch(b, Lines(size, k), 0).value;
    LinesSound(size, k, m);
  }

  /** A stone put on a board without a match can only complete lines through
      itself, and only for the player who put it. */
  lemma MoveWinsOnlyThroughIt(b: seq<Cell>, conds: seq<seq<int>>, index: int, p: Player)
    requires 0 <= index < |b| && b[index] == Empty
    requires forall j :: 0 <= j < |conds| ==> !Matches(b, conds[j])
    ensures var v := Verdict(WithMove(b, index, p), conds);
      v.Won? ==> v == Won(p) && index in VerdictLine(WithMove(b, index, p), conds)
  {
    var b' := WithMove(b, index, p);
    var r := FirstMatch(b', conds, 0);
    if r.Some? {
      var line := conds[r.value];
      if index !in line {
        forall i | 0 <= i < |line|
          ensures b[line[i]] == b[line[0]]
        {
          assert line[i] != index && line[0] != index;
        }
        assert Matches(b, line);
        assert false;
      }
      var i :| 0 <= i < |line| && line[i] == index;
      assert b'[line[i]] == Mark(p);
    }
  }

  // ---------------------------------------------------------------------------
  // The app's state
  // ---------------------------------------------------------------------------

  /** An N×N board of empty cells. */
  function EmptyBoard(n: int): (b: seq<Cell>)
    requires n >= 0
    ensures |b| == n * n && AllEmpty(b)
  {
    seq(n * n, _ => Empty)
  }

  class Game {
    var board: seq<Cell>
    var currentPlayer: Player
    var isGameActive: bool
    var winner: Outcome
    var winningLine: seq<int>
    var scoreX: nat
    var scoreO: nat
    var playerX: PlayerType
    var playerO: PlayerType
    const boardSize: int
    const winConditionLength: int
    const winningConditions: seq<seq<int>>

    /** The facts every handler keeps: a square board, the generated
        conditions, a game that runs exactly while there is no result, a
        running game has an empty cell, a win is backed by a filled
        condition, and a draw by a full board. */
    ghost predicate Valid()
      reads this
    {
      && boardSize >= 1
      && |board| == boardSize * boardSize
      && winningConditions == Lines(boardSize, winConditionLength)
      && (isGameActive <==> winner == NoWinner)
      && (isGameActive ==> Empty in board)
      && (winner.Won? ==>
            winningLine in winningConditions
            && forall i :: 0 <= i < |winningLine| ==>
              0 <= winningLine[i] < |board| && board[winningLine[i]] == Mark(winner.player))
      && (!winner.Won? ==> winningLine == [])
      && (winner == Draw ==> Empty !in board)
    }

    /** The player type that has the given colour. */
    function TypeOf(p: Player): PlayerType
      reads this
    {
      if p == X then playerX else playerO
    }

    /** `isHumanTurn(player)`. */
    predicate IsHumanTurn(p: Player): (h: bool)
      reads this
      ensures h <==> (p == X && playerX == Human) || (p == O && playerO == Human)
    {
      TypeOf(p) == Human
    }

    /** The guard of `handleCellClick`: the cell is empty, the game runs, no
        result is set and a human has the move. */
    predicate ClickAccepted(index: int): (c: bool)
      reads this
      requires 0 <= index < |board|
      ensures c ==> board[index] == Empty && !AiTurn()
    {
      board[index] == Empty && isGameActive && winner == NoWinner && IsHumanTurn(currentPlayer)
    }

    /** The guard of the AI effect: a machine has the move, the game runs and
        no result is set. */
    predicate AiTurn(): (a: bool)
      reads this
      ensures a ==> TypeOf(currentPlayer) == Classic || TypeOf(currentPlayer) == Gemini
    {
      !IsHumanTurn(currentPlayer) && isGameActive && winner == NoWinner
    }

    /** A fresh app for a board of `size`×`size` where `inARow` stones win
        (the app itself uses 15 and 5): an empty board, X to move, no
        result, no points. */
    constructor (size: int, inARow: int, x: PlayerType, o: PlayerType)
      requires size >= 1
      ensures Valid()
      ensures boardSize == size && winConditionLength == inARow
      ensures board == EmptyBoard(boardSize) && currentPlayer == X
      ensures isGameActive && winner == NoWinner && winningLine == []
      ensures scoreX == 0 && scoreO == 0 && playerX == x && playerO == o
    {
      var conditions := GenerateWinningConditions(size, inARow);
      boardSize, winConditionLength := size, inARow;
      board := EmptyBoard(size);
      currentPlayer := X;
      isGameActive := true;
      winner := NoWinner;
      winningLine := [];
      scoreX, scoreO := 0, 0;
      playerX, playerO := x, o;
      winningConditions := conditions;
      new;
      assert board[0] == Empty;
    }

    /** `checkWinner(state)`: scans the conditions in order and stops at the
        first match, recording the winner, the line and a point and ending
        the game; otherwise a full board ends the game as a draw; otherwise
        nothing changes. */
    method CheckWinner(state: seq<Cell>) returns (ended: bool)
      modifies this
      ensures ended <==> Verdict(state, winningConditions) != NoWinner
      ensures winner == (if ended then Verdict(state, winningConditions) else old(winner))
      ensures winningLine ==
        (if Verdict(state, winningConditions).Won? then VerdictLine(state, winningConditions) else old(winningLine))
      ensures isGameActive == (!ended && old(isGameActive))
      ensures scoreX == old(scoreX) + Credit(Verdict(state, winningConditions), X)
      ensures scoreO == old(scoreO) + Credit(Verdict(state, winningConditions), O)
      ensures board == old(board) && currentPlayer == old(currentPlayer)
      ensures playerX == old(playerX) && playerO == old(playerO)
    {
      for i := 0 to |winningConditions|
        invariant FirstMatch(state, winningConditions, i) == FirstMatch(state, winningConditions, 0)
      {
        var winCondition := winningConditions[i];
        if Matches(state, winCondition) {
          var firstCell := state[winCondition[0]].owner;
          winner := Won(firstCell);
          winningLine := winCondition;
          isGameActive := false;
          if firstCell == X {
            scoreX := scoreX + 1;
          } else {
            scoreO := scoreO + 1;
          }
          return true;
        }
      }
      if Empty !in state {
        winner := Draw;
        isGameActive := false;
        return true;
      }
      return false;
    }

    /** The shared move step of the click handler and the AI effect: put the
        current player's stone on an empty cell, judge the new board, and
        pass the turn unless the game ended. */
    method PlayAt(index: int)
      requires Valid() && isGameActive && 0 <= index < |board| && board[index] == Empty
      modifies this
      ensures Valid()
      ensures board == WithMove(old(board), index, old(currentPlayer))
      ensures winner == Verdict(board, winningConditions)
      ensures winningLine == VerdictLine(board, winningConditions)
      ensures isGameActive == (winner == NoWinner)
      ensures currentPlayer == (if winner == NoWinner then Other(old(currentPlayer)) else old(currentPlayer))
      ensures scoreX == old(scoreX) + Credit(winner, X) && scoreO == old(scoreO) + Credit(winner, O)
      ensures playerX == old(playerX) && playerO == old(playerO)
    {
      var newGameState := WithMove(board, index, currentPlayer);
      board := newGameState;
      var gameHasEnded := CheckWinner(newGameState);
      if !gameHasEnded {
        currentPlayer := Other(currentPlayer);
      }
      VerdictLineFilled(newGameState, winningConditions);
    }

    /** `handleCellClick(index)` for a cell of the board: ignored unless the
        guard holds, else the current player's move. */
    method HandleCellClick(index: int)
      requires Valid() && 0 <= index < |board|
      modifies this
      ensures Valid()
      ensures !old(ClickAccepted(index)) ==>
        board == old(board) && currentPlayer == old(currentPlayer) && isGameActive == old(isGameActive)
        && winner == old(winner) && winningLine == old(winningLine)
        && scoreX == old(scoreX) && scoreO == old(scoreO)
      ensures old(ClickAccepted(index)) ==>
        && board == WithMove(old(board), index, old(currentPlayer))
        && winner == Verdict(board, winningConditions)
        && winningLine == VerdictLine(board, winningConditions)
        && isGameActive == (winner == NoWinner)
        && currentPlayer == (if winner == NoWinner then Other(old(currentPlayer)) else old(currentPlayer))
        && scoreX == old(scoreX) + Credit(winner, X) && scoreO == old(scoreO) + Credit(winner, O)
      ensures playerX == old(playerX) && playerO == old(playerO)
    {
      if board[index] != Empty || !isGameActive || winner != NoWinner || !IsHumanTurn(currentPlayer) {
        return;
      }
      PlayAt(index);
    }

    /** The end of the AI effect: a result whose target cell is empty is
        played; a target that is occupied or off the board, or no result at
        all, only passes the turn. */
    method ApplyAiMove(result: Option<AiMove>)
      requires Valid() && AiTurn()
      modifies this
      ensures Valid()
      ensures playerX == old(playerX) && playerO == old(playerO)
      ensures ValidTarget(old(board), boardSize, result) ==>
        var index := MoveIndex(boardSize, result.value);
        && board == WithMove(old(board), index, old(currentPlayer))
        && winner == Verdict(board, winningConditions)
        && winningLine == VerdictLine(board, winningConditions)
        && isGameActive == (winner == NoWinner)
        && currentPlayer == (if winner == NoWinner then Other(old(currentPlayer)) else old(currentPlayer))
        && scoreX == old(scoreX) + Credit(winner, X) && scoreO == old(scoreO) + Credit(winner, O)
      ensures !ValidTarget(old(board), boardSize, result) ==>
        board == old(board) && currentPlayer == Other(old(currentPlayer)) && isGameActive == old(isGameActive)
        && winner == old(winner) && winningLine == old(winningLine)
        && scoreX == old(scoreX) && scoreO == old(scoreO)
    {
      if result.Some? {
        var move := result.value;
        var index := move.row * boardSize + move.col;
        if 0 <= index < |board| && board[index] == Empty {
          PlayAt(index);
        } else {
          currentPlayer := Other(currentPlayer);
        }
      } else {
        currentPlayer := Other(currentPlayer);
      }
    }

    /** A classic-AI turn: the AI reads a copy of the board and its move is
        applied. Its target is always an empty cell, so the turn is never
        passed without a stone. */
    method PlayClassicAiTurn()
      requires Valid() && AiTurn() && TypeOf(currentPlayer) == Classic
      modifies this
      ensures Valid()
      ensures exists index ::
        && 0 <= index < |old(board)| && old(board)[index] == Empty
        && board == WithMove(old(board), index, old(currentPlayer))
        && winner == Verdict(board, winningConditions)
        && winningLine == VerdictLine(board, winningConditions)
        && isGameActive == (winner == NoWinner)
        && currentPlayer == (if winner == NoWinner then Other(old(currentPlayer)) else old(currentPlayer))
        && scoreX == old(scoreX) + Credit(winner, X) && scoreO == old(scoreO) + Credit(winner, O)
        && ((exists j :: IsCandidate(old(board), boardSize, j)) ==>
              IsBestCandidate(old(board), boardSize, old(currentPlayer), index))
      ensures playerX == old(playerX) && playerO == old(playerO)
    {
      var b := board;
      var cells := new Cell[|b|](i => if 0 <= i < |b| then b[i] else Empty);
      assert cells[..] == b;
      var move := GetClassicAiMove(cells, boardSize, currentPlayer);
      ghost var index := MoveIndex(boardSize, move);
      ApplyAiMove(Some(move));
      assert board == WithMove(old(board), index, old(currentPlayer));
    }

    /** `handleGameOptionsChange(options)`: new player types, then a restart. */
    method HandleGameOptionsChange(x: PlayerType, o: PlayerType)
      requires Valid()
      modifies this
      ensures Valid()
      ensures playerX == x && playerO == o
      ensures board == EmptyBoard(boardSize) && currentPlayer == X
      ensures isGameActive && winner == NoWinner && winningLine == []
      ensures scoreX == old(scoreX) && scoreO == old(scoreO)
    {
      playerX, playerO := x, o;
      HandleRestart();
    }

    /** `handleRestart()`: a new game with X to move; the scores and the
        player types stay. */
    method HandleRestart()
      requires Valid()
      modifies this
      ensures Valid()
      ensures board == EmptyBoard(boardSize) && currentPlayer == X
      ensures isGameActive && winner == NoWinner && winningLine == []
      ensures scoreX == old(scoreX) && scoreO == old(scoreO)
      ensures playerX == old(playerX) && playerO == old(playerO)
    {
      board := EmptyBoard(boardSize);
      currentPlayer := X;
      isGameActive := true;
      winner := NoWinner;
      winningLine := [];
      assert board[0] == Empty;
    }
  }

  /** The AI's proposed target is on the board (as a flat index) and empty. */
  predicate ValidTarget(b: seq<Cell>, size: int, result: Option<AiMove>): (v: bool)
    ensures v ==> result.Some? && Empty in b
  {
    result.Some? && 0 <= MoveIndex(size, result.value) < |b| && b[MoveIndex(size, result.value)] == Empty
  }

  /** A move the server accepted is always played by the app: its flat
      index is on the board and the cell is empty. */
  lemma AcceptedReplyIsPlayed(board: seq<Cell>, size: int, parsed: Option<Proposal>)
    requires |board| == size * size
    requires ValidateProposal(board, size, parsed).Accepted?
    ensures var reply := ValidateProposal(board, size, parsed);
      ValidTarget(board, size, Some(AiMove(reply.row, reply.col, reply.thought)))
  {
  }

  /** The app's own test only looks at the flat index, so a column one past
      the edge, which the server refuses, is played in the next row. */
  lemma AppTestWeakerThanServer(board: seq<Cell>, size: int)
    requires size >= 2 && |board| == size * size && AllEmpty(board)
    ensures ValidTarget(board, size, Some(AiMove(0, size, "")))
    ensures ValidateProposal(board, size, Some(Proposal(Some(0), Some(size), ""))).Rejected?
    ensures MoveIndex(size, AiMove(0, size, "")) == Flat(size, 1, 0)
  {
    assert size < size * size by {
      MulAtLeast(size - 1, size);
      assert size * size == (size - 1) * size + size;
    }
  }
}
