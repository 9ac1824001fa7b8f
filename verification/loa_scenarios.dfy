/** The positions of the board's unit tests, and the move the iterator as
    written misses on the starting position. */
module LoaScenarios {

  import opened Results
  import opened LoaTypes
  import opened LoaBoard
  import opened LoaMoveGen

  /** The pawn on c1 moving two squares up: on the starting position its
      column holds exactly two pieces, so this move is legal. */
  const C1C3: Move := Move(3, 1, 3, 3, BP, EMP)

  lemma C1C3Legal()
    ensures IsLegal(StandardBoard(), C1C3) && ReadsBoard(StandardBoard(), C1C3)
  {
    var b := StandardBoard();
    StandardLayout(Blank());
    assert Walk(b, 3, 9, 0, 1) == 0;
    assert Walk(b, 3, 8, 0, 1) == 1;
    assert Walk(b, 3, 7, 0, 1) == 1;
    assert Walk(b, 3, 6, 0, 1) == 1;
    assert Walk(b, 3, 5, 0, 1) == 1;
    assert Walk(b, 3, 4, 0, 1) == 1;
    assert Walk(b, 3, 3, 0, 1) == 1;
    assert Walk(b, 3, 2, 0, 1) == 1;
    assert Walk(b, 3, 1, 0, 1) == 2;
    assert Walk(b, 3, 0, 0, -1) == 0;
    assert Walk(b, 3, 1, 0, -1) == 1;
    assert MoveDirection(C1C3) == N;
    assert PieceCountAlongMove(b, C1C3) == 2;
    assert !BlockedBetween(b, 3, 2, 0, 1, 3, 3, WP);
  }

  /** On the starting position the first black piece in scan order is b1. */
  lemma StandardFirstOwnSquare()
    ensures FirstOwnSquare(StandardBoard()) == Some((2, 1))
  {
    var b := StandardBoard();
    StandardLayout(Blank());
    var f := FirstOwnSquare(b);
    assert Get(b, 2, 1) == b.turn;
    assert Get(b, 1, 1) != b.turn;
    assert f.Some?;
    assert Index(f.value.0, f.value.1) <= 1;
  }

  /** The generator as intended returns c1-c3 on the starting position. */
  lemma IntendedFindsC1C3(b: Board)
    requires b == StandardBoard()
    ensures C1C3 in AllLegalMoves(b)
  {
    C1C3Legal();
    AllLegalMovesExact(b, C1C3);
  }

  /** The iterator as written does not return c1-c3 on the starting
      position: it returns the moves of b1 only. */
  lemma AsWrittenMissesC1C3(b: Board)
    requires b == StandardBoard()
    ensures C1C3 !in LegalMovesAsWritten(b)
  {
    StandardFirstOwnSquare();
    if C1C3 in LegalMovesAsWritten(b) {
      AsWrittenMovesStartOnFirstPiece(b, C1C3);
      assert false;
    }
  }

  /** The squares the board's unit tests read on the starting position. */
  lemma StandardGetExamples(b: Board)
    requires b == StandardBoard()
    ensures Get(b, 1, 1) == EMP && Get(b, 6, 1) == BP && Get(b, 1, 6) == WP
    ensures b.turn == BP && MovesMade(b) == 0
  {
    StandardLayout(Blank());
  }

  /** Moves of the unit tests that the starting position refuses: one that
      moves an empty square, one that moves a white piece on black's turn,
      and one that follows no line. */
  lemma StandardIllegalExamples(b: Board)
    requires b == StandardBoard()
    ensures !IsLegal(b, CreateMove(b, 1, 1, 3, 3).value)
    ensures !IsLegal(b, CreateMove(b, 1, 2, 4, 2).value)
    ensures !IsLegal(b, CreateMove(b, 2, 1, 3, 3).value)
  {
    StandardLayout(Blank());
    assert CreateMove(b, 1, 1, 3, 3).value.moved == EMP;
    assert CreateMove(b, 1, 2, 4, 2).value.moved == WP;
    assert !Aligned(CreateMove(b, 2, 1, 3, 3).value);
  }

  /** Moves of the unit tests that pass every other test but travel one
      square on lines that hold more than one piece: along row 1 (six
      pieces), along column b (b1 and b8) and along the diagonal b1-h7 (b1
      and the white h7). */
  lemma StandardWrongLengthExamples(b: Board)
    requires b == StandardBoard()
    ensures !IsLegal(b, CreateMove(b, 2, 1, 1, 1).value)
    ensures !IsLegal(b, CreateMove(b, 2, 1, 2, 2).value)
    ensures !IsLegal(b, CreateMove(b, 2, 1, 3, 2).value)
  {
    StandardLayout(Blank());
    RowOneCount(b);
    ColumnBCount(b);
    DiagonalB1Count(b);
  }

  lemma RowOneCount(b: Board)
    requires b == StandardBoard()
    ensures CreateMove(b, 2, 1, 1, 1).value.Length() == 1
    ensures PieceCountAlongMove(b, CreateMove(b, 2, 1, 1, 1).value) == 6
  {
    StandardLayout(Blank());
    assert Walk(b, 9, 1, 1, 0) == 0;
    assert Walk(b, 8, 1, 1, 0) == 0;
    assert Walk(b, 7, 1, 1, 0) == 1;
    assert Walk(b, 6, 1, 1, 0) == 2;
    assert Walk(b, 5, 1, 1, 0) == 3;
    assert Walk(b, 4, 1, 1, 0) == 4;
    assert Walk(b, 3, 1, 1, 0) == 5;
    assert Walk(b, 2, 1, 1, 0) == 6;
    assert Walk(b, 0, 1, -1, 0) == 0;
    assert Walk(b, 1, 1, -1, 0) == 0;
    assert Walk(b, 2, 1, -1, 0) == 1;
    assert MoveDirection(CreateMove(b, 2, 1, 1, 1).value) == W;
  }

  lemma ColumnBCount(b: Board)
    requires b == StandardBoard()
    ensures CreateMove(b, 2, 1, 2, 2).value.Length() == 1
    ensures PieceCountAlongMove(b, CreateMove(b, 2, 1, 2, 2).value) == 2
  {
    StandardLayout(Blank());
    assert Walk(b, 2, 9, 0, 1) == 0;
    assert Walk(b, 2, 8, 0, 1) == 1;
    assert Walk(b, 2, 7, 0, 1) == 1;
    assert Walk(b, 2, 6, 0, 1) == 1;
    assert Walk(b, 2, 5, 0, 1) == 1;
    assert Walk(b, 2, 4, 0, 1) == 1;
    assert Walk(b, 2, 3, 0, 1) == 1;
    assert Walk(b, 2, 2, 0, 1) == 1;
    assert Walk(b, 2, 1, 0, 1) == 2;
    assert Walk(b, 2, 0, 0, -1) == 0;
    assert Walk(b, 2, 1, 0, -1) == 1;
    assert MoveDirection(CreateMove(b, 2, 1, 2, 2).value) == N;
  }

  lemma DiagonalB1Count(b: Board)
    requires b == StandardBoard()
    ensures CreateMove(b, 2, 1, 3, 2).value.Length() == 1
    ensures PieceCountAlongMove(b, CreateMove(b, 2, 1, 3, 2).value) == 2
  {
    StandardLayout(Blank());
    assert Walk(b, 9, 8, 1, 1) == 0;
    assert Walk(b, 8, 7, 1, 1) == 1;
    assert Walk(b, 7, 6, 1, 1) == 1;
    assert Walk(b, 6, 5, 1, 1) == 1;
    assert Walk(b, 5, 4, 1, 1) == 1;
    assert Walk(b, 4, 3, 1, 1) == 1;
    assert Walk(b, 3, 2, 1, 1) == 1;
    assert Walk(b, 2, 1, 1, 1) == 2;
    assert Walk(b, 1, 0, -1, -1) == 0;
    assert Walk(b, 2, 1, -1, -1) == 1;
    assert MoveDirection(CreateMove(b, 2, 1, 3, 2).value) == NE;
  }

  /** The move d4-d6 of a black piece, built without reading the board. */
  const D4D6: Move := Move(4, 4, 4, 6, BP, EMP)

  /** The legality test does not compare a move's pieces with the board: on
      the starting position d4-d6 passes it although d4 is empty, and
      retracting it after making it leaves a black piece on d4, so the
      round trip of make and retract needs moves built on the board. */
  lemma StaleMoveNotUndone(b: Board)
    requires b == StandardBoard()
    ensures IsLegal(b, D4D6) && !ReadsBoard(b, D4D6)
    ensures Get(Retract(MakeMove(b, D4D6)), 4, 4) == BP != Get(b, 4, 4)
  {
    StandardLayout(Blank());
    assert Walk(b, 4, 9, 0, 1) == 0;
    assert Walk(b, 4, 8, 0, 1) == 1;
    assert Walk(b, 4, 7, 0, 1) == 1;
    assert Walk(b, 4, 6, 0, 1) == 1;
    assert Walk(b, 4, 5, 0, 1) == 1;
    assert Walk(b, 4, 4, 0, 1) == 1;
    assert Walk(b, 4, 0, 0, -1) == 0;
    assert Walk(b, 4, 1, 0, -1) == 1;
    assert Walk(b, 4, 2, 0, -1) == 1;
    assert Walk(b, 4, 3, 0, -1) == 1;
    assert Walk(b, 4, 4, 0, -1) == 1;
    assert MoveDirection(D4D6) == N;
    assert PieceCountAlongMove(b, D4D6) == 2;
    assert !BlockedBetween(b, 4, 5, 0, 1, 4, 6, WP);
  }

  /** The edits of the board's set test: each puts its piece on its square,
      and the side to move changes only when one is given. */
  lemma StandardSetExamples(b: Board)
    requires b == StandardBoard()
    ensures var b1 := Set(Set(b, 4, 4, BP, Some(WP)), 3, 7, WP, None);
      && b1.turn == WP && Get(b1, 4, 4) == BP && Get(b1, 3, 7) == WP
      && var b2 := Set(b1, 3, 7, EMP, Some(BP));
      b2.turn == BP && Get(b2, 3, 7) == EMP && Get(b2, 4, 4) == BP
  {
  }

  /** A copy of the starting position equals it. */
  lemma CopyEqualsExample(b: Board, dst: Board)
    requires b == StandardBoard()
    ensures Equals(CopyFrom(dst, b), b) && Equals(b, CopyFrom(dst, b))
  {
    EqualsMeansSameGridAndTurn(CopyFrom(dst, b), b);
    EqualsMeansSameGridAndTurn(b, CopyFrom(dst, b));
  }
}
