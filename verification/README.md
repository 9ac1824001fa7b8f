# Lines of Action board and db61b conditions and tables, in Dafny

This project models two pieces of a Java course repository and proves properties of them.

**The Lines of Action board** (`proj2/loa/Board.java`) covers:
- the 8×8 grid and the side to move;
- square designators such as `"c7"`;
- making and retracting moves;
- the movement rule;
- the lazy legal-move iterator;
- the end-of-game contiguity test.

**The db61b database** covers:
- the `where` conditions of its `select` command (`proj1/db61b/Condition.java`);
- the in-memory part of a table (`proj1/db61b/Table.java`).

The Java classes mutate objects. The model turns each mutator into a pure function from a board to a new board. A thrown exception becomes the `Failure` case of a `Result`.

Modules, one file each:
- **`LoaTypes`** (`loa_types.dfy`): pieces, compass directions in scan order (`NOWHERE`, then N, NE, E, SE, S, SW, W, NW), squares and moves.
- **`LoaBoard`** (`loa_board.dfy`):
  - the board as a value;
  - `get`/`set`/`initialize`/`clear`/`copyFrom`, `equals` and `movesMade`;
  - designators, `delta`, the direction search and `pieceCountAlong`;
  - `blocked`, `isLegal`, `makeMove` and `retract`.
- **`LoaLines`** (`loa_lines.dfy`): what the board's line walks mean. The piece count is the number of pieces on the whole line, the blocking walk looks at exactly the squares strictly between origin and destination, and `isLegal` is the Lines of Action movement rule.
- **`LoaMoveGen`** (`loa_movegen.dfy`): the move iterator, both as written and as intended (see Findings).
- **`LoaContiguity`** (`loa_contiguity.dfy`):
  - the flood fill of `piecesContiguous`/`checkPce`;
  - proof that the flood fill computes the connected component of its seed under king-step adjacency;
  - `gameOver`, which records the winner read by `winner`.
- **`DbCondition`** (`db_condition.dfy`):
  - relation parsing into the 3-bit code;
  - `test` and the static `test(List)`;
  - Java's `String.compareTo`.
- **`DbTable`** (`db_table.dfy`): the unique-title check, `numColumns`, `name`, `title`, `columnIndex`, `size` and `add` on a set of rows.
- **`LoaScenarios`** (`loa_scenarios.dfy`): facts about the starting position that the board's unit tests check, the move the iterator as written misses, and a move built without reading the board that make and retract do not undo.
- **`LoaTestPositions`** (`loa_test_positions.dfy`): two other positions of the board's unit tests. On `APC_BLACK_WIN` (one black piece) the iterator returns three moves. On `TEST` black wins the end-of-game test whichever side is to move.
- **`DbLists`** (`db_lists.dfy`): the first and last position of an element in a list, as the database uses them.
- **`Results`** (`results.dfy`): `Result` and `Option`.

Collaborators whose source is not part of this model were modelled from how the core uses them:
- `Piece`: `EMP`/`BP`/`WP` with `opposite`.
- `Direction`: `dc`, `dr` and `succ` in the order above.
- `Move`: origin, destination, moved and replaced piece. Its length is the number of squares travelled. `Move.create` yields `None` off the board.
- `Column`/`Literal`: a value looked up in the current rows, passed as a function.

Two behaviours of the code worth knowing:
- The recorded winner is never cleared. `set`, `makeMove`, `retract` and `initialize` leave it alone.
- `gameOver` looks first at the side that has just moved, that is the opponent of the side to move.

## Model

| member | source | states |
|---|---|---|
| LoaTypes.OppositeInvolutive | proj2/loa/Board.java:134 | the opposite of the opposite side is the side itself, so two turn flips restore the turn |
| LoaBoard.Col | proj2/loa/Board.java:92-97 | a designator is accepted exactly when it is a letter a-h followed by a digit 1-8; anything else fails with "bad square designator" |
| LoaBoard.Row | proj2/loa/Board.java:101-106 | same acceptance and error as for the column |
| LoaBoard.DesignatorRoundTrip | proj2/loa/Board.java:92-106 | parsing the name of any square gives back its column and row |
| LoaBoard.DesignatorParsed | proj2/loa/Board.java:92-106 | every accepted designator is the name of the square it parses to |
| LoaBoard.GetSquare | proj2/loa/Board.java:86-88 | reading a named square succeeds exactly on valid designators and returns the piece on that square |
| LoaBoard.Set | proj2/loa/Board.java:110-120 | the square gets the piece, no other square changes, the turn changes only when a next side is given, and history and winner are kept |
| LoaBoard.NewBoard | proj2/loa/Board.java:36-38 | a board built from contents and a side holds those contents, has that side to move, no moves made and no winner recorded |
| LoaBoard.Initialize | proj2/loa/Board.java:52-60 | every square holds the given contents, the given side moves, the history is empty and the winner is kept |
| LoaBoard.StandardLayout | proj2/loa/Board.java:63-65 | the cleared board has black on rows 1 and 8 and white on columns 1 and 8, corners empty, black to move, no moves made |
| LoaBoard.CopyFrom | proj2/loa/Board.java:68-74 | the copy has the source's contents, side to move and move history, and keeps the destination's winner |
| LoaBoard.EqualsMeansSameGridAndTurn | proj2/loa/Board.java:301-314 | two boards are equal exactly when they have the same contents and the same side to move |
| LoaBoard.CreateMove | proj2/loa/Board.java:497 | a move is built exactly when both squares are on the board, and it records the pieces found on them |
| LoaBoard.Delta | proj2/loa/Board.java:404-413 | 1, 0 or -1 exactly as the end lies above, at or below the start |
| LoaBoard.ScanDirectionFinds | proj2/loa/Board.java:344-355 | the direction search finds the step of every direction after the one it starts from |
| LoaBoard.FindDirection | proj2/loa/Board.java:344-355 | the search finds the direction of any unit step; for a non-unit step it stops at the last direction |
| LoaBoard.MakeMove | proj2/loa/Board.java:122-135 | a legal move empties its origin, puts the moved piece on its destination, changes no other square, flips the turn and appends to the history |
| LoaBoard.Retract | proj2/loa/Board.java:137-149 | the last move's origin gets the moved piece back and its destination the replaced piece; no other square changes, the turn flips and the history loses its last move |
| LoaBoard.RetractRestoresSquares | proj2/loa/Board.java:122-149 | retracting right after making a legal move built on this board puts every square back |
| LoaBoard.RetractUndoesMakeMove | proj2/loa/Board.java:122-149 | retracting right after making a legal move built on this board gives back the very same board: contents, turn, history and winner |
| LoaLines.WalkIsOccSum | proj2/loa/Board.java:359-366 | the board's walk from a square to the edge counts the occupied squares at every offset along the line |
| LoaLines.TwoWalks | proj2/loa/Board.java:359-377 | the forward walk plus the backward walk, less the start square counted twice, is the number of pieces on the whole line |
| LoaLines.PieceCountAlongIsLineCount | proj2/loa/Board.java:338-377 | the piece count the movement rule uses is the number of pieces on the whole line through the origin in that direction |
| LoaLines.OppWithinStep | proj2/loa/Board.java:390-395 | the squares of a line from a start square are that square followed by the squares from the next one |
| LoaLines.BlockedBetweenMeaning | proj2/loa/Board.java:390-395 | the blocking walk finds an opposing piece exactly when one stands among the squares it passes before the destination |
| LoaLines.PathClearShift | proj2/loa/Board.java:381-400 | the walk starting next to the origin passes exactly the squares strictly between origin and destination |
| LoaLines.BlockedMeaning | proj2/loa/Board.java:381-400 | a move is unblocked exactly when no opposing piece lies strictly between its ends and it does not land on its own side |
| LoaLines.IsLegalMeaning | proj2/loa/Board.java:168-192 | a move is legal exactly when the side to move moves it along a row, column or diagonal, as far as there are pieces on that line, over no opposing piece and not onto its own side |
| LoaMoveGen.YieldedMoveFacts | proj2/loa/Board.java:495-501 | a move the iterator stops at is legal, reads the board and starts on the square being scanned |
| LoaMoveGen.SkipTo | proj2/loa/Board.java:479-490 | the skipping loop stops only on a piece of the side to move, never before where it started, and never while the direction cursor is exhausted |
| LoaMoveGen.SkipToFirst | proj2/loa/Board.java:479-490 | the skipping loop passes over no piece of the side to move: it stops on the first one, or finds none |
| LoaMoveGen.TryDirections | proj2/loa/Board.java:494-503 | the direction loop stops only at a real direction after the one it starts from, one that yields a legal move, and returns that direction's candidate move |
| LoaMoveGen.TryDirectionsFirst | proj2/loa/Board.java:494-503 | no direction before the one the loop stops at yields a legal move, and none at all when it stops at none |
| LoaMoveGen.IncrAdvances | proj2/loa/Board.java:477-504 | every advance of the iterator moves its cursor strictly forward, so the iteration ends |
| LoaMoveGen.DirMoves | proj2/loa/Board.java:494-503 | every move collected for a square is legal, reads the board and starts on that square |
| LoaMoveGen.DirMovesByTry | proj2/loa/Board.java:494-503 | the moves of a square in the remaining directions are the direction loop's move followed by the moves after its direction |
| LoaMoveGen.YieldedFromOwnSquare | proj2/loa/Board.java:477-504 | once the iterator stands on a piece of the side to move, it returns that piece's moves in the remaining directions and then stops |
| LoaMoveGen.FirstOwnSquare | proj2/loa/Board.java:449-452 | the iterator's first stop is the first piece of the side to move in scan order, if there is one |
| LoaMoveGen.AsWrittenIsFirstPieceOnly | proj2/loa/Board.java:440-505 | the iterator as written returns exactly the moves of the first piece of the side to move, and nothing when there is none |
| LoaMoveGen.AsWrittenSound | proj2/loa/Board.java:440-505 | every move the iterator as written returns is legal |
| LoaMoveGen.AsWrittenMovesStartOnFirstPiece | proj2/loa/Board.java:477-504 | every move the iterator as written returns starts on the first piece of the side to move |
| LoaMoveGen.HasLegalMoveAsWritten | proj2/loa/Board.java:204-207 | when the board's legal-move test holds, some legal move exists |
| LoaMoveGen.LegalMoveIsCandidate | proj2/loa/Board.java:495-498 | every legal move is the candidate the iterator builds for its origin and direction |
| LoaMoveGen.CandidateInDirMoves | proj2/loa/Board.java:494-503 | the candidate of every later direction that yields is among the square's moves |
| LoaMoveGen.SquareAtIndex | proj2/loa/Board.java:479-490 | scan positions and squares correspond one to one |
| LoaMoveGen.SquareMovesInScan | proj2/loa/Board.java:479-490 | the moves of every square of the side to move at or after a scan position are scanned from it |
| LoaMoveGen.AllLegalMovesExact | proj2/loa/Board.java:194-197 | the corrected generator returns a move exactly when it is legal and reads the board |
| LoaMoveGen.HasLegalMoveComplete | proj2/loa/Board.java:204-207 | on the corrected generator, any legal move makes the legal-move test hold |
| LoaMoveGen.HasLegalMoveSound | proj2/loa/Board.java:204-207 | on the corrected generator, when the test holds, the first move generated is legal |
| LoaContiguity.LinkedSymmetric | proj2/loa/Board.java:223-256 | a chain of pieces from one square to another, reversed, leads back |
| LoaContiguity.LinkedTransitive | proj2/loa/Board.java:223-256 | chains of pieces join end to end |
| LoaContiguity.FirstOfSide | proj2/loa/Board.java:233-244 | the seed search finds a piece of the side, at or before every piece of the side from its starting square on in column-major order; it finds none only when no piece of the side is at or after its starting square |
| LoaContiguity.CheckNeighbours | proj2/loa/Board.java:268-282 | one square's direction loop marks exactly the unmarked neighbours of the side and marks every neighbour of the side |
| LoaContiguity.CheckPce | proj2/loa/Board.java:258-285 | a round marks exactly the squares it returns, each a piece of the side not marked before |
| LoaContiguity.CheckPceAdjacent | proj2/loa/Board.java:258-285 | every square a round returns is a neighbour of a square of its input list |
| LoaContiguity.CheckPceMarksNeighbours | proj2/loa/Board.java:258-285 | after a round, every neighbour of the side of every input square is marked |
| LoaContiguity.Spread | proj2/loa/Board.java:245-247 | repeating rounds only adds marks, and only on pieces of the side |
| LoaContiguity.SpreadSound | proj2/loa/Board.java:245-247 | everything the flood fill marks is joined to the seed by a chain of pieces of the side |
| LoaContiguity.SpreadClosed | proj2/loa/Board.java:245-247 | when the flood fill stops, every neighbour of the side of every marked square is marked |
| LoaContiguity.SpreadIsComponent | proj2/loa/Board.java:224-247 | the flood fill from a piece marks exactly the pieces joined to it |
| LoaContiguity.ContiguousFromSeed | proj2/loa/Board.java:248-255 | every piece of the side is marked exactly when every two pieces of the side are joined |
| LoaContiguity.NoPiecesContiguous | proj2/loa/Board.java:224-256 | a side with no pieces passes the test |
| LoaContiguity.PiecesContiguousMeaning | proj2/loa/Board.java:223-256 | the contiguity test holds exactly when every two pieces of the side are joined by a chain of king steps over pieces of the side |
| LoaContiguity.GameOver | proj2/loa/Board.java:210-221 | the game is over exactly when one side is contiguous; the side that just moved wins when contiguous, and otherwise the side to move does; only the winner changes |
| DbCondition.NewCondition | proj1/db61b/Condition.java:21-29 | a condition is built exactly when the relation is one of the six, keeps both operands and carries the code at the relation's position; otherwise it fails with "<relation> is not a valid relation." |
| DbCondition.NewLiteralCondition | proj1/db61b/Condition.java:36-38 | a condition against a literal is built exactly when the relation is one of the six, with the column on the left, the literal on the right and the code at the relation's position; otherwise it fails with the same message |
| DbCondition.CodesDistinct | proj1/db61b/Condition.java:16 | the six relation codes are distinct, and "!=" is coded as the Java int -3 |
| DbCondition.RelationCode | proj1/db61b/Condition.java:24-25 | each relation gets the code at its own position in the list |
| DbCondition.CompareToSign | proj1/db61b/Condition.java:44 | the sign of the string comparison is lexicographic order: negative, zero or positive exactly as the left string is before, equal to or after the right one |
| DbCondition.CodeMeaning | proj1/db61b/Condition.java:43-59 | each code accepts exactly the comparison results of its relation |
| DbCondition.TestMeaning | proj1/db61b/Condition.java:43-59 | a condition holds exactly when its two values stand in its relation, in lexicographic order |
| DbCondition.TestAll | proj1/db61b/Condition.java:62-69 | a list of conditions holds exactly when every one of them holds |
| DbCondition.BasicUnknownRelation | proj1/db61b/BasicTests.java:192-200 | the relation "greater than" is refused |
| DbCondition.BasicCondition0 | proj1/db61b/BasicTests.java:203 | "1" > "2" fails |
| DbCondition.BasicCondition1 | proj1/db61b/BasicTests.java:204 | "3" <= "2" fails |
| DbCondition.BasicCondition2 | proj1/db61b/BasicTests.java:205 | "1" = "1" holds |
| DbCondition.BasicCondition3 | proj1/db61b/BasicTests.java:206 | "1" < "3" holds |
| DbCondition.BasicCondition4 | proj1/db61b/BasicTests.java:207 | "3" >= "3" holds |
| DbCondition.BasicCondition5 | proj1/db61b/BasicTests.java:208 | "2" != "1" holds |
| DbCondition.BasicConditionList | proj1/db61b/BasicTests.java:210 | the six conditions together fail |
| DbLists.IndexOf | proj1/db61b/Table.java:72-73 | the first position of a title, or -1 exactly when it is absent |
| DbLists.LastIndexOf | proj1/db61b/Table.java:25 | the last position of a title, or -1 exactly when it is absent |
| DbTable.FirstLastDiffer | proj1/db61b/Table.java:25 | a title's first and last positions differ exactly when it occurs twice |
| DbTable.RepeatedFrom | proj1/db61b/Table.java:24-28 | the constructor's loop finds a repeat exactly when some title from that position on occurs twice |
| DbTable.NewTable | proj1/db61b/Table.java:21-31 | a new table has the given name and titles and no rows; the error is "All columns in <name> must be unique." |
| DbTable.NewTableFailsOnRepeats | proj1/db61b/Table.java:21-31 | building a table fails exactly when two titles are equal |
| DbTable.ColumnIndex | proj1/db61b/Table.java:71-74 | the column index is -1 exactly when no column has the title, and otherwise a column with that title |
| DbTable.TitleIndexRoundTrip | proj1/db61b/Table.java:65-74 | with distinct titles, the column index of a column's title is that column, and the title at a title's index is that title |
| DbTable.Add | proj1/db61b/Table.java:83-85 | adding reports true exactly when the row was absent; afterwards the row is present, nothing else was added, and the size grows by one exactly when it reported true |
| DbTable.AddIdempotent | proj1/db61b/Table.java:83-85 | adding the same row again changes nothing and reports false |
| DbTable.BasicTableExamples | proj1/db61b/BasicTests.java:51-73 | the test table's name, titles, column indexes (including -1 for "DNE") and size 0 |
| DbTable.BasicRepeatedTitles | proj1/db61b/BasicTests.java:56-65 | titles with "Title 2" twice are refused |
| DbTable.BasicAddExamples | proj1/db61b/BasicTests.java:75-98 | adding a row gives size 1, adding it again is refused with size 1, and adding another row gives size 2 |
| LoaScenarios.StandardGetExamples | proj2/loa/UnitTest.java:84-90 | on the starting position a1 is empty, f1 is black, a6 is white, black moves and no move was made |
| LoaScenarios.StandardIllegalExamples | proj2/loa/UnitTest.java:123-132 | on the starting position, moving the empty a1, moving the white a2 on black's turn, and the off-line move b1-c3 are illegal |
| LoaScenarios.StandardWrongLengthExamples | proj2/loa/UnitTest.java:134-140 | on the starting position b1-a1, b1-b2 and b1-c2 are illegal: each travels one square along a line holding six, two and two pieces |
| LoaScenarios.StaleMoveNotUndone | proj2/loa/Board.java:122-149 | a move built without reading the board can be legal (d4-d6 of a black piece while d4 is empty), and making then retracting it leaves black on d4, so the round trip needs moves built on the board |
| LoaScenarios.StandardSetExamples | proj2/loa/UnitTest.java:94-106 | setting d4 to black with white next, then c7 to white, gives white to move with both pieces placed; clearing c7 with black next gives black to move, c7 empty and d4 still black |
| LoaScenarios.CopyEqualsExample | proj2/loa/UnitTest.java:168-175 | a copy of the starting position equals it, both ways round |
| LoaScenarios.C1C3Legal | proj2/loa/Board.java:168-192 | c1-c3 is legal on the starting position: column c holds two pieces and nothing is in the way |
| LoaScenarios.StandardFirstOwnSquare | proj2/loa/Board.java:479-490 | on the starting position the iterator first stops on b1 |
| LoaScenarios.IntendedFindsC1C3 | proj2/loa/Board.java:194-197 | the corrected generator returns c1-c3 on the starting position |
| LoaScenarios.AsWrittenMissesC1C3 | proj2/loa/Board.java:477-504 | the iterator as written never returns c1-c3 on the starting position |
| LoaTestPositions.ApcBoard | proj2/loa/UnitTest.java:49-58 | the board built from `APC_BLACK_WIN` has its one black piece on d3 and white on b2, c2, e3, f3, h3, b4, d4, e4, c5 and c8 |
| LoaTestPositions.ApcOnlyBlackPiece | proj2/loa/Board.java:449-452 | d3 is the only black square, and the iterator's first stop |
| LoaTestPositions.ApcNorth | proj2/loa/Board.java:168-192 | d3 has no legal move north: the file holds d3 and d4, and the white d4 stands in the way of d3-d5 |
| LoaTestPositions.ApcNorthEast | proj2/loa/Board.java:168-192 | d3 has no legal move north-east: the diagonal holds c2, d3 and e4, and the white e4 stands in the way of d3-g6 |
| LoaTestPositions.ApcEast | proj2/loa/Board.java:168-192 | d3 has no legal move east: the rank holds d3, e3, f3 and h3, and the white e3 stands in the way of d3-h3 |
| LoaTestPositions.ApcSouthEast | proj2/loa/Board.java:168-192 | d3 is alone on its south-east diagonal, so d3-e2 is legal |
| LoaTestPositions.ApcSouth | proj2/loa/Board.java:168-192 | the file holds two pieces and d3-d1 passes only the empty d2, so it is legal |
| LoaTestPositions.ApcSouthWest | proj2/loa/Board.java:168-192 | d3 has no legal move south-west: the line holds three pieces and the destination is off the board |
| LoaTestPositions.ApcWest | proj2/loa/Board.java:168-192 | d3 has no legal move west: the line holds four pieces and the destination is off the board |
| LoaTestPositions.ApcNorthWest | proj2/loa/Board.java:168-192 | d3 is alone on its north-west diagonal, so d3-c4 is legal |
| LoaTestPositions.ApcSquareMoves | proj2/loa/Board.java:494-503 | the moves of d3 in the direction loop's order are d3-e2, d3-d1 and d3-c4 |
| LoaTestPositions.ApcIteratorMoves | proj2/loa/UnitTest.java:178-189 | the iterator as written returns exactly d3-e2, d3-d1 and d3-c4, three moves |
| LoaTestPositions.ApcBlackSquare | proj2/loa/UnitTest.java:49-58 | every black piece of the position stands on d3 |
| LoaTestPositions.ApcBlackConnected | proj2/loa/Board.java:223-256 | black's pieces are connected |
| LoaTestPositions.ApcBlackContiguous | proj2/loa/UnitTest.java:155-162 | the contiguity test passes for black |
| LoaTestPositions.TestBoard | proj2/loa/UnitTest.java:71-80 | a board holding the `TEST` grid has black on d1, e1, d2, e3, e4, d5, f5, b6, c6, e6 and f6, white on a1, f1, h1, a2, c2, g2, h2, a3, c3, h3 and h4 |
| LoaTestPositions.TestBlackSquares | proj2/loa/UnitTest.java:71-80 | every black piece is one of those eleven squares |
| LoaTestPositions.TestBlackLinked | proj2/loa/Board.java:223-256 | every black piece is joined to d1 by a chain of black pieces |
| LoaTestPositions.TestBlackContiguous | proj2/loa/Board.java:223-256 | black's pieces are contiguous |
| LoaTestPositions.TestWhiteCorner | proj2/loa/Board.java:223-256 | the white a1, a2 and a3 have no white neighbour outside those three squares |
| LoaTestPositions.TestWhiteCut | proj2/loa/Board.java:223-256 | no chain of white pieces joins a1 to c2 |
| LoaTestPositions.TestWhiteSplit | proj2/loa/Board.java:223-256 | white's pieces are not contiguous |
| LoaTestPositions.TestGameOver | proj2/loa/UnitTest.java:204-210 | with either side to move the game is over and black is the winner |

## Left out

- MachinePlayer, Game and HumanPlayer: the search engine, the command loop and the input player are outside the modelled core.
- Board's `toString`, `hashCode` and `boardState`: printing, a constant hash and a test accessor carry no logic worth stating.
- Board's `assert isLegal(move)` in `makeMove` and `assert movesMade() > 0` in `retract`: these become preconditions of `MakeMove` and `Retract`.
- The iterator's `hasNext`, `next` and `remove`, and the exceptions they throw: the iterator is modelled as the whole sequence it returns.
- Object identity: `copyFrom` tests `board == this` by reference. The model tests value equality, which gives the same board because the copy keeps the destination's winner either way.
- `Move`, `Piece`, `Direction`, `Column`, `Row` and `DBException` are not part of this model. Their behaviour is taken from how the core uses them, as described above.
- Table's `readTable`, `writeTable`, `print`, `select`, `iterator`, `tableIterator` and `getRows`: file I/O, printing, joins and iteration order of a hash set are outside the modelled core. Rows are a mathematical set, so iteration order does not arise.
- `Condition.test`: column values are given as a function from title to value. The lookup of a column in the current rows is not modelled.
- DbCondition.CompareToSign: characters are Dafny `char`, not UTF-16 code units. The order is the same on the strings the tests use.
- The unit-test positions `SOME_PIECES`, `BLACK_WIN`, `NO_WIN` and `TWOGRP_NO_WIN` are not replayed. Each would need its own layout proof; `APC_BLACK_WIN` and `TEST` exercise the same iterator, contiguity and end-of-game logic.
- Board's `winner()` (proj2/loa/Board.java:163-165) has no member of its own: it reads the board's `winner` field, which `GameOver` and `NewBoard` state.
- LoaMoveGen.HasLegalMoveAsWritten: states only that a true answer is correct. A false answer is not complete as written, which is the finding below.

## Findings

| source | as written | input that shows it | evidently intended | confidence | as-written member | corrected member |
|---|---|---|---|---|---|---|
| proj2/loa/Board.java:477-504 | `incr` resets the direction cursor to `NOWHERE` only when it is exhausted after the skipping loop. That loop only stops while the cursor still has a successor, so the reset never happens. After the first piece's eight directions the cursor stays at NW and the skipping loop runs off the board. The iterator therefore returns only the moves of the first piece of the side to move, and `isLegalMove` answers for that piece alone. | the starting position, black to move: the iterator returns only moves of b1, and the legal move c1-c3 is never returned | every legal move of the side to move, each square with all eight directions | not executed | LoaMoveGen.LegalMovesAsWritten, LoaMoveGen.AsWrittenIsFirstPieceOnly, LoaScenarios.AsWrittenMissesC1C3 | LoaMoveGen.AllLegalMoves, LoaMoveGen.AllLegalMovesExact, LoaScenarios.IntendedFindsC1C3, LoaMoveGen.HasLegalMoveComplete |
