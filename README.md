# Gomoku: a verified model of the game logic

This project models the logic of a browser Gomoku ("five in a row") app: an
N×N board (15×15 in the app) on which X (Black) and O take turns putting
stones, and a player wins by filling K consecutive cells (K = 5) in a row, a
column or a diagonal. The board is a row-major list of cells: cell (r, c)
lives at flat index r*N + c. The model covers four parts:

- **Winning-line generator** (`generateWinningConditions`, module `WinningLines`).
  Four pairs of nested counting loops list every K-cell line as flat indices:
  first the rows, then the columns, then the ↘ diagonals, then the ↙ diagonals.
  The method is proved equal to a specification function `Lines(size, k)`.
  That function is built from the loops' start cells, and the lemmas about it
  cover the exact count, order, bounds, straightness, completeness and absence
  of duplicates.
- **Classic heuristic AI** (`classicAiService.ts`, module `ClassicAi`).
  - It collects the empty cells that have an occupied king-move neighbour.
  - On an empty board it plays index `floor(size*size/2)`, which is the
    centre on odd-sized boards such as the app's 15×15.
  - Otherwise it scores each candidate by the longest run a stone there would
    make, for itself and for the opponent, and keeps the first candidate with
    the strictly best weighted score.
  - `HasNeighbor`, `GetScoreForMove` and `GetClassicAiMove` are methods over
    an `array<Cell>`, each proved against a specification function or
    predicate. `IsSameLine` is a pure function.
- **Game state** (`App.tsx`, module `Game`). A class `Game` holds the fields
  the app's handlers update: the board, the player to move, whether the game
  is active, the winner, the winning line, the scores, and who plays each
  colour. Its methods are `checkWinner`, the guarded click handler, the
  AI-move application, restart and the change of game options. They keep a
  class invariant `Valid()` and are specified against a pure verdict
  function `Verdict`.
- **Gemini move endpoint** (`api/getGeminiMove`, module `GeminiApi`). This
  covers the text form of the board that goes into the language-model prompt
  (`boardToString`, with JavaScript's `trim`) and the server's check of the
  move the model proposes. The check builds a 200, 400 or 500 reply.

Module `Board` holds the shared vocabulary: players, cells, `Option`, and the
flat-index arithmetic with its division and remainder lemmas. JavaScript's
`Math.floor(i / n)` and `i % n` are used only on non-negative operands, where
they agree with Dafny's `/` and `%`.

The classic AI weighs the opponent's score by 0.9, a floating-point number.
The model uses the exact integer scaling `10*offence + 9*defence`. The
initial best score of -1 becomes -10 under that scaling, so every comparison
`>` has the same outcome as in the source, because `10^k` for k ≤ 9 is an
exact integer.

## Model

| member | source | states |
|---|---|---|
| Board.Other | services/classicAiService.ts:81 | The opponent is always the other colour (also App.tsx's turn toggle). |
| Board.WithMove | App.tsx:61-62 | The copied board carries the player's stone at the index, and every other cell is unchanged. |
| WinningLines.GenerateWinningConditions | utils/gameUtils.ts:8-48 | The nested push loops return exactly `Lines(size, inARow)`: the rows block, then columns, then ↘, then ↙, in loop order. This holds for every integer size and run length. |
| WinningLines.PushRows | utils/gameUtils.ts:11-18 | The row loops append the lines of the rows block in order: row r, start column c appends cells r*size+c+i. |
| WinningLines.PushColumns | utils/gameUtils.ts:20-27 | The column loops append the columns block in order: outer loop over columns, inner loop over start rows. |
| WinningLines.PushDiagonals | utils/gameUtils.ts:29-36 | The ↘ loops append the ↘ block, with start rows and start columns up to size-inARow. |
| WinningLines.PushAntiDiagonals | utils/gameUtils.ts:38-45 | The ↙ loops append the ↙ block, with the start column descending from size-1 to inARow-1. |
| WinningLines.RowLine | utils/gameUtils.ts:15 | The innermost row loop builds the inARow cells of the line that starts at (r, c). |
| WinningLines.ColumnLine | utils/gameUtils.ts:24 | The innermost column loop builds the cells (r+i)*size+c of the vertical line. |
| WinningLines.DiagonalLine | utils/gameUtils.ts:33 | The innermost ↘ loop builds the cells (r+i)*size+(c+i). |
| WinningLines.AntiDiagonalLine | utils/gameUtils.ts:42 | The innermost ↙ loop builds the cells (r+i)*size+(c-i). |
| WinningLines.LinesSound | utils/gameUtils.ts:12-45 | Each emitted condition has exactly inARow entries and is the line of its start, and that line fits on the board. For size ≥ 1 it is straight: every index is in [0, size²), consecutive indices are one direction step apart, and all cells share the first cell's row, column, r−c or r+c. |
| WinningLines.LinesInBounds | utils/gameUtils.ts:12-45 | Every index of every condition lies in [0, size*size). |
| WinningLines.FittingLineStraight | utils/gameUtils.ts:12-45 | A line whose cells all stay on the board does not wrap: its steps are 1, size, size+1 or size−1, all on one row, column or diagonal. |
| WinningLines.LinesComplete | utils/gameUtils.ts:8-48 | For inARow ≥ 1, a line is emitted iff all of its cells lie on the board, and then its index list appears in the output. |
| WinningLines.LinesDistinct | utils/gameUtils.ts:8-48 | For inARow ≥ 2 no condition is emitted twice. |
| WinningLines.SingletonLinesRepeat | utils/gameUtils.ts:12-45 | For inARow = 1 the condition `[0]` is emitted at least twice, as the first row line and as the first column line. So the preceding lemma needs inARow ≥ 2. |
| WinningLines.SingletonBlocks | utils/gameUtils.ts:12-45 | For inARow = 1 there are 4·size² conditions, and each direction's block has size² of them. |
| WinningLines.SingletonInEveryBlock | utils/gameUtils.ts:12-45 | For inARow = 1 the one-cell condition of every board cell appears in each of the four blocks. |
| WinningLines.SingletonOncePerBlock | utils/gameUtils.ts:12-45 | For inARow = 1 no block repeats a condition. Together with the previous lemma, each cell's one-cell condition is emitted exactly once per direction, four times in all. |
| WinningLines.LinesCount | utils/gameUtils.ts:12-45 | The count is 2·N·(N−K+1) + 2·(N−K+1)², with negative loop ranges counted as empty. |
| WinningLines.FifteenByFiveCount | utils/gameUtils.ts:12-45 | The app's 15×15 board with K = 5 has 572 winning conditions. |
| WinningLines.ThreeByThreeCount | utils/gameUtils.ts:12-45 | A 3×3 board with K = 3 has 8 conditions. |
| WinningLines.ThreeByThreeLines | utils/gameUtils.ts:8-48 | The 3×3, K = 3 output is exactly the 3 rows, the 3 columns, then [0,4,8] and [2,4,6], in this order. |
| WinningLines.NoLinesWhenTooLong | utils/gameUtils.ts:13-40 | When inARow > size every loop range is empty and no condition is emitted. |
| WinningLines.LinesOrder | utils/gameUtils.ts:11-45 | The line visited at outer iteration o and inner iteration j of a direction's loop pair is output entry BlockOffset(d) + o·(N−K+1) + j. |
| WinningLines.BlockOffsetValue | utils/gameUtils.ts:11-45 | The four blocks start at 0, N(N−K+1), 2N(N−K+1) and 2N(N−K+1)+(N−K+1)². |
| ClassicAi.Score | services/classicAiService.ts:45-78 | Placing the stone and taking 10 to the longest run through the cell yields at least 10, because the stone itself makes a run of 1. |
| ClassicAi.IsSameLine | services/classicAiService.ts:27-39 | A true answer implies both indices are on the board (the early `false` at line 28). |
| ClassicAi.SameLineByDirection | services/classicAiService.ts:27-39 | For size ≥ 3 and each of the four steps, the test holds iff both indices are on the board and share the row, the column, r−c or r+c respectively. |
| ClassicAi.OtherStepNeverSame | services/classicAiService.ts:34-38 | Any step other than 1, size, size+1 and size−1 gives false. |
| ClassicAi.SameLineIffNoWrap | services/classicAiService.ts:27-39 | Stepping t times from an on-board cell stays "on the same line" iff the corresponding row and column stay on the board, so a run never wraps around an edge. |
| ClassicAi.SizeTwoAntiDiagonalQuirk | services/classicAiService.ts:34-37 | On a 2×2 board the ↙ step equals 1 and is tested as horizontal: cells 1 and 2 share r+c but are rejected. |
| ClassicAi.WinningLinesAreSameLine | services/classicAiService.ts:27-39 | Any two cells of a generated winning line pass the test for that line's direction. This ties the AI's geometry to the generator's. |
| ClassicAi.HasNeighbor | services/classicAiService.ts:7-21 | The nested loop with early return finds a neighbour iff some on-board king-move neighbour, other than the cell itself, is occupied. |
| ClassicAi.GetScoreForMove | services/classicAiService.ts:45-78 | On a copy of the board with the stone placed, the score is `Score`, which is 10 to the longest run through the cell over the four directions. The caller's array is not modified. |
| ClassicAi.CountBackward | services/classicAiService.ts:54-61 | The backward loop counts the maximal run of the player's stones behind the cell, stopping at the first miss, at most 4. |
| ClassicAi.CountForward | services/classicAiService.ts:63-70 | The forward loop adds the maximal run starting at the cell itself, at most 5. |
| ClassicAi.BackRunMaximal | services/classicAiService.ts:54-61 | The counted backward run has at most 4 cells (the loop runs for i < 5), every counted cell holds, and the next one does not. |
| ClassicAi.ForwardRunMaximal | services/classicAiService.ts:63-70 | The forward run has at most 5 cells, every counted cell holds, and the cell after the run does not. |
| ClassicAi.ScoreBounds | services/classicAiService.ts:48-77 | For an on-board index the score is 10^k for some 1 ≤ k ≤ 9, so it lies between 10 and 10^9. |
| ClassicAi.LongerRunScoresHigher | services/classicAiService.ts:72-75 | A longer best run through the cell always yields a strictly higher score. |
| ClassicAi.Pow10Increasing | services/classicAiService.ts:72 | `Math.pow(10, k)` is strictly increasing in k. |
| ClassicAi.WeightedOrder | services/classicAiService.ts:108-110 | The scaled value `10*off + 9*def` of one candidate beats another's iff `off₁ + 0.9·def₁ > off₂ + 0.9·def₂` in exact real arithmetic. This is the source's comparison of `offensiveScore + defensiveScore * 0.9`. |
| ClassicAi.LongerThreatWins | services/classicAiService.ts:103-113 | Whichever side it belongs to, a strictly longer best run (offence or defence) gives a strictly higher weighted score. |
| ClassicAi.OffenceBreaksTies | services/classicAiService.ts:108 | When the longest runs are equal, the AI's own run beats an equally long opponent run, so offence is slightly favoured. |
| ClassicAi.Combined | services/classicAiService.ts:104-108 | A candidate's weighted score is at least 10, so the first candidate always beats the initial score. |
| ClassicAi.RankCandidate | services/classicAiService.ts:104-108 | The offensive and defensive calls give the cell its `Combined` weighted score. |
| ClassicAi.CollectCandidates | services/classicAiService.ts:84-92 | The collected cells are exactly the empty cells with an occupied neighbour, in strictly ascending index order. |
| ClassicAi.PickBest | services/classicAiService.ts:103-113 | The scan returns -1 for no candidates. Otherwise it returns a candidate whose score no candidate exceeds, and every lower-indexed candidate scores strictly less (the strict `>`). |
| ClassicAi.BestOfCandidates | services/classicAiService.ts:84-113 | The scan's result is the best candidate: empty, with a neighbour, maximal, and the smallest index among the maxima. |
| ClassicAi.GetClassicAiMove | services/classicAiService.ts:80-129 | The move is on the board and on an empty cell, with `row*size + col` its index and `0 ≤ col < size`. On an empty board it is index `floor(size*size/2)`, decoded as row `center/size` and column `center%size`, with the opening thought. On odd sizes that is the centre (size/2, size/2). Otherwise it carries the heuristic thought. When candidates exist it is the best candidate. |
| ClassicAi.OpeningAsWrittenOnBoard | services/classicAiService.ts:96-98 | `floor(size*size/2)` is a cell of the board, and its row/column decoding gives the index back. |
| ClassicAi.CandidateExists | services/classicAiService.ts:115-120 | A board with both an occupied and an empty cell has a candidate, so the random fallback is reached only when the board is full or empty. |
| ClassicAi.OpeningIndexIsCentre | services/classicAiService.ts:95-100 | The corrected opening index is on the board at row size/2, column size/2, and equals the source's `floor(size*size/2)` for odd sizes. |
| ClassicAi.FifteenOpening | services/classicAiService.ts:96-98 | On the 15×15 board the opening is index 112, that is (7, 7). |
| ClassicAi.OpeningAsWrittenOffCentre | services/classicAiService.ts:96-98 | For an even size, `floor(size*size/2)` is (size/2, 0), the first cell of the middle row, not the centre. |
| ClassicAi.SizeFourOpeningAsWritten | services/classicAiService.ts:96-98 | On a 4×4 board the source plays index 8, that is (2, 0), while the centre (2, 2) is index 10. |
| Game.Matches | App.tsx:31-32 | A condition matches iff it is non-empty and all of its cells hold one player's stone. The source's test is that the first cell is non-null and every cell equals it. |
| Game.Verdict | App.tsx:28-49 | A win names a player who owns a matching condition. A draw implies no empty cell, and "no winner" implies an empty cell. |
| Game.VerdictLine | App.tsx:33-34 | A line is highlighted iff the verdict is a win, and the highlighted line is a matching condition of the list. |
| Game.LineOwner | App.tsx:31-32 | A matching condition's cells all hold the owner's stone. |
| Game.FirstMatch | App.tsx:29-40 | The scan result, when there is one, is a matching condition at or after the starting position. |
| Game.FirstMatchIsFirst | App.tsx:29-40 | No condition before the first match matches. No match means that no condition matches at all. |
| Game.VerdictWonIff | App.tsx:28-38 | A player wins iff some condition is filled with that player's stones and no earlier condition matches. |
| Game.VerdictDrawIff | App.tsx:42-47 | A draw is declared iff no condition matches and no cell is empty. |
| Game.VerdictNoWinnerIff | App.tsx:48 | The game goes on iff no condition matches and some cell is empty. |
| Game.VerdictLineFilled | App.tsx:33-34 | On a win, the highlighted line is a condition filled with the winner's stones. Otherwise nothing is highlighted. |
| Game.WinIsStraightRun | App.tsx:28-38 | With the generated conditions, a win is K ≥ 1 stones of the winner on a straight row, column or diagonal. |
| Game.MoveWinsOnlyThroughIt | App.tsx:61-66 | A stone put on a board with no match can only win for its own player, through a line that contains it. |
| Game.EmptyBoard | App.tsx:14 | The fresh board has size² cells, all empty. |
| Game.Game.IsHumanTurn | App.tsx:51-54 | It is a human's turn iff the colour to move is X and X is played by a human, or O and O is. |
| Game.Game.ClickAccepted | App.tsx:57 | An accepted click is on an empty cell and never on an AI's turn. |
| Game.Game.AiTurn | App.tsx:125-126 | The AI effect runs only when the colour to move is played by the classic AI or by Gemini. |
| Game.Game.constructor | App.tsx:13-25 | A new game has an empty board, X to move, an active game, no winner, no line, zero scores, the given player types, and the generated conditions. |
| Game.Game.CheckWinner | App.tsx:28-49 | The method returns true iff the verdict is not "no winner". On a win it sets the winner and the line, deactivates the game and adds one point to that player only. On a draw it sets Draw and deactivates. Otherwise nothing changes. The board, the turn and the player types are never touched. |
| Game.Game.PlayAt | App.tsx:61-69 | The current player's stone is placed on the empty cell. The new state is judged, and the turn toggles iff the game did not end. `Valid()` is kept. |
| Game.Game.HandleCellClick | App.tsx:56-70 | The click is ignored, with the state unchanged, if the cell is occupied, the game is inactive, a winner is set or a machine has the move. Otherwise the current player moves at exactly that index. |
| Game.Game.ApplyAiMove | App.tsx:141-173 | A result whose target is an empty on-board cell is played. A target that is occupied or off the board, or no result at all, leaves the board as it is and passes the turn. |
| Game.Game.PlayClassicAiTurn | App.tsx:125-173 | A classic-AI turn always puts a stone on a previously empty cell, and when candidates exist that cell is the AI's best candidate. The new state is judged, with the winner, the line, the active flag, the turn and the scores as after any move. It never just passes the turn, and the player types stay. |
| Game.Game.HandleRestart | App.tsx:72-79 | The board becomes all empty, X moves, the game is active, there is no winner and no line. The scores and the player types stay. |
| Game.Game.HandleGameOptionsChange | App.tsx:81-84 | The new player types are set and the game restarts. The scores stay. |
| Game.ValidTarget | App.tsx:150-151 | An AI result is playable only if there is one and the board still has an empty cell. |
| Game.AcceptedReplyIsPlayed | api/getGeminiMove/index.ts:100-115 | A move the server accepts is always played by the app: its flat index is an empty on-board cell. |
| Game.AppTestWeakerThanServer | App.tsx:150-151 | The app tests only the flat index. It would play a column one past the edge (row 0, column size) at (1, 0), a move the server rejects with 400. |
| GeminiApi.CellChar | api/getGeminiMove/index.ts:23-24 | A cell prints as '.' iff it is empty, and otherwise as its player's letter. |
| GeminiApi.CellText | api/getGeminiMove/index.ts:23-24 | Each board index contributes exactly one character iff it is on the board, and that character is '.' iff the cell is empty. An index past the end contributes the word `undefined`. |
| GeminiApi.Trim | api/getGeminiMove/index.ts:28 | `trim` never lengthens the text, leaves no white space at either end, and leaves a text with visible first and last characters unchanged. |
| GeminiApi.TrimEnd | api/getGeminiMove/index.ts:28 | The part removed is a suffix made only of white space, and what remains does not end in white space. |
| GeminiApi.TrimStart | api/getGeminiMove/index.ts:28 | The part removed is a prefix made only of white space, and what remains does not start with white space. |
| GeminiApi.TrimFinalNewline | api/getGeminiMove/index.ts:28 | `trim` of a text with visible first and last characters, followed by one newline, removes exactly that newline. |
| GeminiApi.BoardToString | api/getGeminiMove/index.ts:19-29 | The loops produce the trimmed text of `size` rows of cell characters, each followed by a newline. |
| GeminiApi.AppendRow | api/getGeminiMove/index.ts:22-25 | The inner loop appends the characters of row r in column order. |
| GeminiApi.TrimmedGrid | api/getGeminiMove/index.ts:24-28 | For size ≥ 1 the untrimmed text has size·(size+1) characters, and trimming removes only its final newline. |
| GeminiApi.BoardTextLayout | api/getGeminiMove/index.ts:19-28 | For size ≥ 1 the text has size² + size − 1 characters. Position r·(size+1)+c is cell (r, c)'s character, and position r·(size+1)+size is a newline between lines. There is nothing after the last line, and size 0 gives the empty text. |
| GeminiApi.ValidateProposal | api/getGeminiMove/index.ts:98-128 | The reply is 200 iff both fields are numbers and name an on-board empty cell. It then copies row and column and defaults a missing thought to "A strategic move.". It is 400 "Invalid move from AI" for numeric but invalid moves and 500 otherwise. |
| GeminiApi.AcceptIffEmptyCell | api/getGeminiMove/index.ts:100-104 | On a full-size board a numeric proposal is accepted iff 0 ≤ row < size, 0 ≤ col < size and cell (row, col) is empty. |

## Left out

- The React components, the JSX of App.tsx, the status-message effect, `isAiThinking` and the sound hook: these are presentation and audio.
- The `setTimeout`/`await` delays and the asynchronous ordering of the AI effect: the model runs each handler to completion, one at a time.
- The Gemini client in services/geminiService.ts and its random fallback: these are network code and randomness. `ApplyAiMove` takes any `Option<AiMove>` as the result of that call.
- The Azure handler in api/getGeminiMove/index.ts: the request parsing, the missing-parameter 400 at lines 38-42, the API-key lookup, the prompt, the `GoogleGenAI` call, `JSON.parse` and the catch-all 500 at lines 130-135. These are I/O and foreign calls. `ValidateProposal` starts from the parsed answer, given as a `Proposal` whose numeric fields are `Option<int>`.
- Non-integer numbers, `NaN` and strings in the model's answer for row and column: the model's `Some(int)` covers integer numbers only, and any non-number is `None`.
- A thought that is a falsy non-string (`0`, `false`) is not modelled: the thought is a string, and only `""` falls back to the default.
- ClassicAi.GetClassicAiMove: requires a board of exactly size² cells and at least one empty cell. On a full board the source's fallback indexes an empty list and returns `NaN` as row and column. The app never calls the AI on a full board, because a full board ends the game.
- ClassicAi.GetClassicAiMove: the random fallback is modelled as an arbitrary choice of an empty cell, since randomness is not modelled. `CandidateExists` shows it is reached only on an all-empty board, which the opening handles first, so it is unreachable under the precondition.
- ClassicAi.GetScoreForMove: floating-point `0.9 * 10^k` is replaced by the exact integer comparison `10*off + 9*def`. This gives the same order because `10^k` with k ≤ 9 and `0.9*10^k` are exact.
- Game.Game.constructor: takes the board size and the run length as parameters, while the app fixes them at 15 and 5. `FifteenByFiveCount` and `FifteenOpening` state the app's values.
- Game.Game.HandleCellClick: requires an on-board index, the only kind the board component sends. An off-board index would read `undefined` in the source and write past the end.
- Game.Game.IsHumanTurn: the source's guard against a `null` player is not modelled, because the current player is always X or O.
- Game.Game.PlayClassicAiTurn: the Gemini branch of the AI effect is not modelled as a method, because its result comes from the network. `ApplyAiMove` covers what the app does with whatever it returns.
- WinningLines.LinesDistinct: states no duplicates only for inARow ≥ 2, because for inARow = 1 each cell is emitted once per direction (`SingletonInEveryBlock`, `SingletonOncePerBlock`).

## Findings

| source | as written | input that shows it | evidently intended | confidence | as-written member | corrected member |
|---|---|---|---|---|---|---|
| services/classicAiService.ts:96-98 | The opening move is index `floor(size*size/2)`, decoded to (row, col). | size 4: index 8, which is (2, 0), the left edge of the middle row | The centre cell (floor(size/2), floor(size/2)), as the comment "play in the center" says; for size 4 that is index 10, (2, 2) | not executed | ClassicAi.OpeningAsWrittenOffCentre | ClassicAi.OpeningIndexIsCentre |
