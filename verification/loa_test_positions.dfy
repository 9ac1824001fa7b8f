/** Two positions of the board's unit tests besides the starting one: the
    position where black has a single piece, on which the iterator test
    counts three moves and black passes the contiguity test, and the
    position on which the end-of-game test names black the winner whichever
    side is to move. */
module LoaTestPositions {

  import opened Results
  import opened LoaTypes
  import opened LoaBoard
  import opened LoaMoveGen
  import opened LoaContiguity

  // ---------------------------------------------------------------------
  // One black piece: the iterator test

  /** White's pieces: b2, c2, e3, f3, h3, b4, d4, e4, c5 and c8. */
  const ApcWhite: set<Square> := {
    Sq(2, 2), Sq(3, 2), Sq(5, 3), Sq(6, 3), Sq(8, 3), Sq(2, 4), Sq(4, 4),
    Sq(5, 4), Sq(3, 5), Sq(3, 8)}

  /** Black's only piece is on d3. */
  function ApcAt(c: int, r: int): Piece
  {
    if c == 4 && r == 3 then BP else if Sq(c, r) in ApcWhite then WP else EMP
  }

  /** The position as the test writes it, bottom row first. */
  const ApcPieces: Grid := [
    [EMP, EMP, EMP, EMP, EMP, EMP, EMP, EMP],
    [EMP, WP,  WP,  EMP, EMP, EMP, EMP, EMP],
    [EMP, EMP, EMP, BP,  WP,  WP,  EMP, WP ],
    [EMP, WP,  EMP, WP,  WP,  EMP, EMP, EMP],
    [EMP, EMP, WP,  EMP, EMP, EMP, EMP, EMP],
    [EMP, EMP, EMP, EMP, EMP, EMP, EMP, EMP],
    [EMP, EMP, EMP, EMP, EMP, EMP, EMP, EMP],
    [EMP, EMP, WP,  EMP, EMP, EMP, EMP, EMP]
  ]

  /** `b` holds the position with black to move. */
  predicate ApcLayout(b: Board)
  {
    b.turn == BP && forall c: Coord, r: Coord :: Get(b, c, r) == ApcAt(c, r)
  }

  /** The test's grid is the position described above. */
  lemma ApcBoard(b: Board)
    requires b == NewBoard(ApcPieces, BP)
    ensures ApcLayout(b)
  {
    forall c: Coord, r: Coord
      ensures Get(b, c, r) == ApcAt(c, r)
    {
      var row := ApcPieces[r - 1];
      if r == 1 {
        assert row == [EMP, EMP, EMP, EMP, EMP, EMP, EMP, EMP];
      } else if r == 2 {
        assert row == [EMP, WP, WP, EMP, EMP, EMP, EMP, EMP];
      } else if r == 3 {
        assert row == [EMP, EMP, EMP, BP, WP, WP, EMP, WP];
      } else if r == 4 {
        assert row == [EMP, WP, EMP, WP, WP, EMP, EMP, EMP];
      } else if r == 5 {
        assert row == [EMP, EMP, WP, EMP, EMP, EMP, EMP, EMP];
      } else if r == 8 {
        assert row == [EMP, EMP, WP, EMP, EMP, EMP, EMP, EMP];
      } else {
        assert row == [EMP, EMP, EMP, EMP, EMP, EMP, EMP, EMP];
      }
    }
  }

  /** d3 is black's only piece, so it is where the iterator stops first. */
  lemma ApcOnlyBlackPiece(b: Board)
    requires ApcLayout(b)
    ensures forall c: Coord, r: Coord :: Get(b, c, r) == BP <==> c == 4 && r == 3
    ensures FirstOwnSquare(b) == Some((4, 3))
  {
    forall c: Coord, r: Coord
      ensures Get(b, c, r) == BP <==> c == 4 && r == 3
    {
      assert Get(b, c, r) == ApcAt(c, r);
    }
    var f := FirstOwnSquare(b);
    assert Get(b, 4, 3) == b.turn;
    assert f.Some?;
    assert Get(b, f.value.0, f.value.1) == BP;
  }

  /** North from d3 the pieces on the file are d3 and d4, and white's d4
      stands in the way of d3-d5. */
  lemma ApcNorth(b: Board)
    requires ApcLayout(b)
    ensures !Yields(b, 4, 3, N)
  {
    assert Walk(b, 4, 9, 0, 1) == 0;
    assert Walk(b, 4, 8, 0, 1) == 0;
    assert Walk(b, 4, 7, 0, 1) == 0;
    assert Walk(b, 4, 6, 0, 1) == 0;
    assert Walk(b, 4, 5, 0, 1) == 0;
    assert Walk(b, 4, 4, 0, 1) == 1;
    assert Walk(b, 4, 3, 0, 1) == 2;
    assert Walk(b, 4, 0, 0, -1) == 0;
    assert Walk(b, 4, 1, 0, -1) == 0;
    assert Walk(b, 4, 2, 0, -1) == 0;
    assert Walk(b, 4, 3, 0, -1) == 1;
    var m := Candidate(b, 4, 3, N).value;
    assert m == Move(4, 3, 4, 5, BP, EMP);
    assert MoveDirection(m) == N;
    assert BlockedBetween(b, 4, 4, 0, 1, 4, 5, WP);
  }

  /** North-east the diagonal holds c2, d3 and e4, and white's e4 is in the
      way of d3-g6. */
  lemma ApcNorthEast(b: Board)
    requires ApcLayout(b)
    ensures !Yields(b, 4, 3, NE)
  {
    assert Walk(b, 9, 8, 1, 1) == 0;
    assert Walk(b, 8, 7, 1, 1) == 0;
    assert Walk(b, 7, 6, 1, 1) == 0;
    assert Walk(b, 6, 5, 1, 1) == 0;
    assert Walk(b, 5, 4, 1, 1) == 1;
    assert Walk(b, 4, 3, 1, 1) == 2;
    assert Walk(b, 1, 0, -1, -1) == 0;
    assert Walk(b, 2, 1, -1, -1) == 0;
    assert Walk(b, 3, 2, -1, -1) == 1;
    assert Walk(b, 4, 3, -1, -1) == 2;
    var m := Candidate(b, 4, 3, NE).value;
    assert m == Move(4, 3, 7, 6, BP, EMP);
    assert MoveDirection(m) == NE;
    assert BlockedBetween(b, 5, 4, 1, 1, 7, 6, WP);
  }

  /** East the rank holds d3, e3, f3 and h3; white's e3 is in the way of
      d3-h3. */
  lemma ApcEast(b: Board)
    requires ApcLayout(b)
    ensures !Yields(b, 4, 3, E)
  {
    assert Walk(b, 9, 3, 1, 0) == 0;
    assert Walk(b, 8, 3, 1, 0) == 1;
    assert Walk(b, 7, 3, 1, 0) == 1;
    assert Walk(b, 6, 3, 1, 0) == 2;
    assert Walk(b, 5, 3, 1, 0) == 3;
    assert Walk(b, 4, 3, 1, 0) == 4;
    assert Walk(b, 0, 3, -1, 0) == 0;
    assert Walk(b, 1, 3, -1, 0) == 0;
    assert Walk(b, 2, 3, -1, 0) == 0;
    assert Walk(b, 3, 3, -1, 0) == 0;
    assert Walk(b, 4, 3, -1, 0) == 1;
    var m := Candidate(b, 4, 3, E).value;
    assert m == Move(4, 3, 8, 3, BP, WP);
    assert MoveDirection(m) == E;
    assert BlockedBetween(b, 5, 3, 1, 0, 8, 3, WP);
  }

  /** South-east d3 is alone on its diagonal, so d3-e2 is legal. */
  lemma ApcSouthEast(b: Board)
    requires ApcLayout(b)
    ensures Yields(b, 4, 3, SE) && Candidate(b, 4, 3, SE).value == Move(4, 3, 5, 2, BP, EMP)
  {
    assert Walk(b, 7, 0, 1, -1) == 0;
    assert Walk(b, 6, 1, 1, -1) == 0;
    assert Walk(b, 5, 2, 1, -1) == 0;
    assert Walk(b, 4, 3, 1, -1) == 1;
    assert Walk(b, 0, 7, -1, 1) == 0;
    assert Walk(b, 1, 6, -1, 1) == 0;
    assert Walk(b, 2, 5, -1, 1) == 0;
    assert Walk(b, 3, 4, -1, 1) == 0;
    assert Walk(b, 4, 3, -1, 1) == 1;
    var m := Candidate(b, 4, 3, SE).value;
    assert m == Move(4, 3, 5, 2, BP, EMP);
    assert MoveDirection(m) == SE;
    assert !BlockedBetween(b, 5, 2, 1, -1, 5, 2, WP);
  }

  /** South the file holds d3 and d4, and d3-d1 passes only the empty d2. */
  lemma ApcSouth(b: Board)
    requires ApcLayout(b)
    ensures Yields(b, 4, 3, S) && Candidate(b, 4, 3, S).value == Move(4, 3, 4, 1, BP, EMP)
  {
    assert Walk(b, 4, 9, 0, 1) == 0;
    assert Walk(b, 4, 8, 0, 1) == 0;
    assert Walk(b, 4, 7, 0, 1) == 0;
    assert Walk(b, 4, 6, 0, 1) == 0;
    assert Walk(b, 4, 5, 0, 1) == 0;
    assert Walk(b, 4, 4, 0, 1) == 1;
    assert Walk(b, 4, 3, 0, 1) == 2;
    assert Walk(b, 4, 0, 0, -1) == 0;
    assert Walk(b, 4, 1, 0, -1) == 0;
    assert Walk(b, 4, 2, 0, -1) == 0;
    assert Walk(b, 4, 3, 0, -1) == 1;
    var m := Candidate(b, 4, 3, S).value;
    assert m == Move(4, 3, 4, 1, BP, EMP);
    assert MoveDirection(m) == S;
    assert !BlockedBetween(b, 4, 1, 0, -1, 4, 1, WP);
    assert !BlockedBetween(b, 4, 2, 0, -1, 4, 1, WP);
  }

  /** South-west three squares from d3 is off the board. */
  lemma ApcSouthWest(b: Board)
    requires ApcLayout(b)
    ensures !Yields(b, 4, 3, SW)
  {
    assert Walk(b, 9, 8, 1, 1) == 0;
    assert Walk(b, 8, 7, 1, 1) == 0;
    assert Walk(b, 7, 6, 1, 1) == 0;
    assert Walk(b, 6, 5, 1, 1) == 0;
    assert Walk(b, 5, 4, 1, 1) == 1;
    assert Walk(b, 4, 3, 1, 1) == 2;
    assert Walk(b, 1, 0, -1, -1) == 0;
    assert Walk(b, 2, 1, -1, -1) == 0;
    assert Walk(b, 3, 2, -1, -1) == 1;
    assert Walk(b, 4, 3, -1, -1) == 2;
    assert PieceCountAlong(b, 4, 3, SW) == 3;
  }

  /** West four squares from d3 is off the board. */
  lemma ApcWest(b: Board)
    requires ApcLayout(b)
    ensures !Yields(b, 4, 3, W)
  {
    assert Walk(b, 9, 3, 1, 0) == 0;
    assert Walk(b, 8, 3, 1, 0) == 1;
    assert Walk(b, 7, 3, 1, 0) == 1;
    assert Walk(b, 6, 3, 1, 0) == 2;
    assert Walk(b, 5, 3, 1, 0) == 3;
    assert Walk(b, 4, 3, 1, 0) == 4;
    assert Walk(b, 0, 3, -1, 0) == 0;
    assert Walk(b, 1, 3, -1, 0) == 0;
    assert Walk(b, 2, 3, -1, 0) == 0;
    assert Walk(b, 3, 3, -1, 0) == 0;
    assert Walk(b, 4, 3, -1, 0) == 1;
    assert PieceCountAlong(b, 4, 3, W) == 4;
  }

  /** North-west d3 is alone on its diagonal, so d3-c4 is legal. */
  lemma ApcNorthWest(b: Board)
    requires ApcLayout(b)
    ensures Yields(b, 4, 3, NW) && Candidate(b, 4, 3, NW).value == Move(4, 3, 3, 4, BP, EMP)
  {
    assert Walk(b, 7, 0, 1, -1) == 0;
    assert Walk(b, 6, 1, 1, -1) == 0;
    assert Walk(b, 5, 2, 1, -1) == 0;
    assert Walk(b, 4, 3, 1, -1) == 1;
    assert Walk(b, 0, 7, -1, 1) == 0;
    assert Walk(b, 1, 6, -1, 1) == 0;
    assert Walk(b, 2, 5, -1, 1) == 0;
    assert Walk(b, 3, 4, -1, 1) == 0;
    assert Walk(b, 4, 3, -1, 1) == 1;
    var m := Candidate(b, 4, 3, NW).value;
    assert m == Move(4, 3, 3, 4, BP, EMP);
    assert MoveDirection(m) == NW;
    assert !BlockedBetween(b, 3, 4, -1, 1, 3, 4, WP);
  }

  /** The legal move of d3 in the directions after south: d3-c4. */
  lemma ApcLastMoves(b: Board)
    requires ApcLayout(b)
    ensures DirMoves(b, 4, 3, S) == [Move(4, 3, 3, 4, BP, EMP)]
  {
    ApcNorthWest(b);
    DirMovesStep(b, 4, 3, W, NW);
    assert DirMoves(b, 4, 3, NW) == [];
    ApcWest(b);
    DirMovesStep(b, 4, 3, SW, W);
    ApcSouthWest(b);
    DirMovesStep(b, 4, 3, S, SW);
  }

  /** The legal moves of d3 in the directions after east: d3-e2, d3-d1 and
      d3-c4. */
  lemma ApcLaterMoves(b: Board)
    requires ApcLayout(b)
    ensures DirMoves(b, 4, 3, E) ==
      [Move(4, 3, 5, 2, BP, EMP), Move(4, 3, 4, 1, BP, EMP), Move(4, 3, 3, 4, BP, EMP)]
  {
    ApcLastMoves(b);
    ApcSouth(b);
    DirMovesStep(b, 4, 3, SE, S);
    ApcSouthEast(b);
    DirMovesStep(b, 4, 3, E, SE);
  }

  /** The legal moves of d3, directions in scan order: none of the first
      three directions yields. */
  lemma ApcSquareMoves(b: Board)
    requires ApcLayout(b)
    ensures MovesOfSquare(b, 4, 3) ==
      [Move(4, 3, 5, 2, BP, EMP), Move(4, 3, 4, 1, BP, EMP), Move(4, 3, 3, 4, BP, EMP)]
  {
    ApcLaterMoves(b);
    ApcEast(b);
    DirMovesStep(b, 4, 3, NE, E);
    ApcNorthEast(b);
    DirMovesStep(b, 4, 3, N, NE);
    ApcNorth(b);
    DirMovesStep(b, 4, 3, NOWHERE, N);
  }

  /** The iterator test: with black to move the iterator returns three
      moves, d3-e2, d3-d1 and d3-c4. Black has one piece, so the iterator's
      restriction to the first piece cannot show here. */
  lemma ApcIteratorMoves(b: Board)
    requires b == NewBoard(ApcPieces, BP)
    ensures LegalMovesAsWritten(b) ==
      [Move(4, 3, 5, 2, BP, EMP), Move(4, 3, 4, 1, BP, EMP), Move(4, 3, 3, 4, BP, EMP)]
    ensures |LegalMovesAsWritten(b)| == 3
  {
    ApcBoard(b);
    ApcOnlyBlackPiece(b);
    AsWrittenIsFirstPieceOnly(b);
    ApcSquareMoves(b);
  }

  /** The one square holding black is d3. */
  lemma ApcBlackSquare(b: Board, s: Square)
    requires ApcLayout(b) && Holds(b, BP, s)
    ensures s == Sq(4, 3)
  {
    assert Get(b, s.col, s.row) == ApcAt(s.col, s.row);
  }

  /** Black's single piece is trivially connected. */
  lemma ApcBlackConnected(b: Board)
    requires ApcLayout(b)
    ensures Contiguous(b, BP)
  {
    var s0 := Sq(4, 3);
    forall s | Holds(b, BP, s)
      ensures Linked(b, BP, s0, s)
    {
      ApcBlackSquare(b, s);
      LinkedRefl(b, BP, s0);
    }
    LinkedToOneMeansContiguous(b, BP, s0);
  }

  /** The contiguity test passes for black's single piece. */
  lemma ApcBlackContiguous(b: Board)
    requires b == NewBoard(ApcPieces, BP)
    ensures PiecesContiguous(b, BP)
  {
    ApcBoard(b);
    ApcBlackConnected(b);
    PiecesContiguousMeaning(b, BP);
  }

  // ---------------------------------------------------------------------
  // Black connected, white split: the end-of-game test

  /** Black's eleven pieces form one group. */
  const TestBlack: set<Square> := {
    Sq(4, 1), Sq(5, 1), Sq(4, 2), Sq(5, 3), Sq(5, 4), Sq(4, 5),
    Sq(6, 5), Sq(2, 6), Sq(3, 6), Sq(5, 6), Sq(6, 6)}

  /** White's a1-a3 group is cut off from the rest of white. */
  const TestWhite: set<Square> := {
    Sq(1, 1), Sq(6, 1), Sq(8, 1), Sq(1, 2), Sq(3, 2), Sq(7, 2), Sq(8, 2),
    Sq(1, 3), Sq(3, 3), Sq(8, 3), Sq(8, 4)}

  function TestAt(c: int, r: int): Piece
  {
    if Sq(c, r) in TestBlack then BP else if Sq(c, r) in TestWhite then WP else EMP
  }

  /** The position as the test writes it, bottom row first. */
  const TestPieces: Grid := [
    [WP,  EMP, EMP, BP,  BP,  WP,  EMP, WP ],
    [WP,  EMP, WP,  BP,  EMP, EMP, WP,  WP ],
    [WP,  EMP, WP,  EMP, BP,  EMP, EMP, WP ],
    [EMP, EMP, EMP, EMP, BP,  EMP, EMP, WP ],
    [EMP, EMP, EMP, BP,  EMP, BP,  EMP, EMP],
    [EMP, BP,  BP,  EMP, BP,  BP,  EMP, EMP],
    [EMP, EMP, EMP, EMP, EMP, EMP, EMP, EMP],
    [EMP, EMP, EMP, EMP, EMP, EMP, EMP, EMP]
  ]

  /** `b` holds the position, whichever side is to move. */
  predicate TestLayout(b: Board)
  {
    forall c: Coord, r: Coord :: Get(b, c, r) == TestAt(c, r)
  }

  /** The test's grid is the position described above. */
  lemma TestBoard(b: Board)
    requires b.grid == TestPieces
    ensures TestLayout(b)
  {
    forall c: Coord, r: Coord
      ensures Get(b, c, r) == TestAt(c, r)
    {
      var row := TestPieces[r - 1];
      if r == 1 {
        assert row == [WP, EMP, EMP, BP, BP, WP, EMP, WP];
      } else if r == 2 {
        assert row == [WP, EMP, WP, BP, EMP, EMP, WP, WP];
      } else if r == 3 {
        assert row == [WP, EMP, WP, EMP, BP, EMP, EMP, WP];
      } else if r == 4 {
        assert row == [EMP, EMP, EMP, EMP, BP, EMP, EMP, WP];
      } else if r == 5 {
        assert row == [EMP, EMP, EMP, BP, EMP, BP, EMP, EMP];
      } else if r == 6 {
        assert row == [EMP, BP, BP, EMP, BP, BP, EMP, EMP];
      } else {
        assert row == [EMP, EMP, EMP, EMP, EMP, EMP, EMP, EMP];
      }
    }
  }

  lemma TestBlackSquares(b: Board)
    requires TestLayout(b)
    ensures forall s :: Holds(b, BP, s) ==> s in TestBlack
  {
    forall s | Holds(b, BP, s)
      ensures s in TestBlack
    {
      assert Get(b, s.col, s.row) == TestAt(s.col, s.row);
    }
  }

  /** Each black piece is reached from d1 by a chain of black neighbours. */
  lemma TestBlackLinked(b: Board)
    requires TestLayout(b)
    ensures forall s :: s in TestBlack ==> Linked(b, BP, Sq(4, 1), s)
  {
    var s0 := Sq(4, 1);
    LinkedRefl(b, BP, s0);
    LinkedExtend(b, BP, s0, s0, Sq(5, 1));
    LinkedExtend(b, BP, s0, s0, Sq(4, 2));
    LinkedExtend(b, BP, s0, Sq(4, 2), Sq(5, 3));
    LinkedExtend(b, BP, s0, Sq(5, 3), Sq(5, 4));
    LinkedExtend(b, BP, s0, Sq(5, 4), Sq(4, 5));
    LinkedExtend(b, BP, s0, Sq(5, 4), Sq(6, 5));
    LinkedExtend(b, BP, s0, Sq(6, 5), Sq(6, 6));
    LinkedExtend(b, BP, s0, Sq(6, 5), Sq(5, 6));
    LinkedExtend(b, BP, s0, Sq(4, 5), Sq(3, 6));
    LinkedExtend(b, BP, s0, Sq(3, 6), Sq(2, 6));
  }

  /** Black's pieces are contiguous. */
  lemma TestBlackContiguous(b: Board)
    requires TestLayout(b)
    ensures Contiguous(b, BP)
  {
    TestBlackSquares(b);
    TestBlackLinked(b);
    LinkedToOneMeansContiguous(b, BP, Sq(4, 1));
  }

  /** White's a1, a2 and a3 have no other white neighbour. */
  lemma TestWhiteCorner(b: Board)
    requires TestLayout(b)
    ensures ClosedExcept(b, WP, {Sq(1, 1), Sq(1, 2), Sq(1, 3)}, [])
  {
    var corner := {Sq(1, 1), Sq(1, 2), Sq(1, 3)};
    forall x | x in corner
      ensures NeighboursMarked(b, WP, x, corner)
    {
      forall e: Direction | e != NOWHERE && Holds(b, WP, Step(x, e))
        ensures Step(x, e) in corner
      {
        var t := Step(x, e);
        assert Get(b, t.col, t.row) == TestAt(t.col, t.row);
      }
    }
  }

  /** No chain of white pieces leads from a1 to c2. */
  lemma TestWhiteCut(b: Board)
    requires TestLayout(b)
    ensures !Linked(b, WP, Sq(1, 1), Sq(3, 2))
  {
    if Linked(b, WP, Sq(1, 1), Sq(3, 2)) {
      var p :| IsPath(b, WP, p) && p[0] == Sq(1, 1) && p[|p| - 1] == Sq(3, 2);
      TestWhiteCorner(b);
      ClosedHoldsPath(b, WP, {Sq(1, 1), Sq(1, 2), Sq(1, 3)}, p);
      assert false;
    }
  }

  /** White's pieces are not contiguous. */
  lemma TestWhiteSplit(b: Board)
    requires TestLayout(b)
    ensures !Contiguous(b, WP)
  {
    TestWhiteCut(b);
    assert Holds(b, WP, Sq(1, 1)) && Holds(b, WP, Sq(3, 2));
  }

  /** The end-of-game test: the game is over and black wins, with black to
      move (white is checked first and is split) and with white to move
      (black is checked first and is connected). */
  lemma TestGameOver(bTurn: Board, wTurn: Board)
    requires bTurn == NewBoard(TestPieces, BP) && wTurn == NewBoard(TestPieces, WP)
    ensures GameOver(bTurn).0 && GameOver(bTurn).1.winner == BP
    ensures GameOver(wTurn).0 && GameOver(wTurn).1.winner == BP
  {
    TestBoard(bTurn);
    TestBoard(wTurn);
    TestBlackContiguous(bTurn);
    TestWhiteSplit(bTurn);
    TestBlackContiguous(wTurn);
  }
}
