/** Legal-move generation. The board's lazy iterator is modelled twice: as
    written, where the direction cursor is never reset when the scan moves on
    to the next square, and as intended, where every square of the side to
    move gets all eight directions. */
module LoaMoveGen {

  import opened Results
  import opened LoaTypes
  import opened LoaBoard

  /** Position of (c, r) in the scan order: column fastest, then row. */
  function Index(c: Coord, r: Coord): nat
  {
    (r - 1) * 8 + (c - 1)
  }

  /** The move the iterator builds for the piece on (c, r) in direction `d`:
      as many squares as there are pieces on that line. */
  function Candidate(b: Board, c: Coord, r: Coord, d: Direction): Option<Move>
    requires d != NOWHERE
  {
    CreateAlong(b, c, r, PieceCountAlong(b, c, r, d), d)
  }

  /** The iterator stops at direction `d` of (c, r). */
  predicate Yields(b: Board, c: Coord, r: Coord, d: Direction)
    requires d != NOWHERE
  {
    Candidate(b, c, r, d).Some? && IsLegal(b, Candidate(b, c, r, d).value)
  }

  /** `m` is a legal move that reads the board and starts on (c, r). */
  predicate LegalFrom(b: Board, m: Move, c: Coord, r: Coord)
  {
    IsLegal(b, m) && ReadsBoard(b, m) && m.Origin() == Sq(c, r)
  }

  /** A move the iterator stops at is legal, reads the board and starts on
      the square being scanned. */
  lemma YieldedMoveFacts(b: Board, c: Coord, r: Coord, d: Direction)
    requires d != NOWHERE && Yields(b, c, r, d)
    ensures LegalFrom(b, Candidate(b, c, r, d).value, c, r)
  {
  }

  // ---------------------------------------------------------------------
  // The iterator as written

  /** Cursor of the iterator: current square and last direction tried. */
  datatype Cursor = Cursor(c: Coord, r: Coord, dir: Direction)

  /** The cursor `s` lies strictly after the cursor `t`. */
  predicate After(s: Cursor, t: Cursor)
  {
    Index(s.c, s.r) > Index(t.c, t.r)
    || (Index(s.c, s.r) == Index(t.c, t.r) && Ord(s.dir) > Ord(t.dir))
  }

  /** No square at scan positions i .. j - 1 holds the side to move. */
  predicate NoOwnBetween(b: Board, i: int, j: int)
  {
    forall c: Coord, r: Coord :: i <= Index(c, r) < j ==> Get(b, c, r) != b.turn
  }

  /** Scan positions tell squares apart. */
  lemma IndexInjective(c: Coord, r: Coord, c': Coord, r': Coord)
    requires Index(c, r) == Index(c', r')
    ensures c == c' && r == r'
  {
  }

  /** A square that does not hold the side to move extends a stretch of
      such squares starting right after it. */
  lemma NoOwnExtend(b: Board, c: Coord, r: Coord, i': int, j: int)
    requires Get(b, c, r) != b.turn && i' == Index(c, r) + 1 && NoOwnBetween(b, i', j)
    ensures NoOwnBetween(b, Index(c, r), j)
  {
    forall c': Coord, r': Coord | Index(c, r) <= Index(c', r') < j
      ensures Get(b, c', r') != b.turn
    {
      if Index(c', r') == Index(c, r) {
        IndexInjective(c, r, c', r');
      }
    }
  }

  /** How many cursor positions lie ahead of `s`, counting its own. */
  function Rank(s: Cursor): nat
  {
    9 * (64 - Index(s.c, s.r)) + (8 - Ord(s.dir))
  }

  /** A cursor after `s` has fewer positions ahead of it. */
  lemma RankDrops(s: Cursor, t: Cursor)
    requires After(t, s)
    ensures Rank(t) < Rank(s)
  {
  }

  /** The inner skipping loop of the iterator: advance over squares that do
      not hold the side to move, and over every square while the direction
      cursor is exhausted, until a stopping square or the end of the board. */
  function SkipTo(b: Board, c: Coord, r: Coord, dir: Direction): (res: Option<(Coord, Coord)>)
    ensures Succ(dir).None? ==> res.None?
    ensures res.Some? ==> Get(b, res.value.0, res.value.1) == b.turn
    ensures res.Some? ==> Index(c, r) <= Index(res.value.0, res.value.1)
    decreases 64 - Index(c, r)
  {
    if Get(b, c, r) == b.turn && Succ(dir).Some? then Some((c, r))
    else if c < M then SkipTo(b, c + 1, r, dir)
    else if r < M then SkipTo(b, 1, r + 1, dir)
    else None
  }

  /** Where the skipping loop from (c, r) ends: the scan position it stops
      on, or 64 when it runs off the board. */
  function SkipEnd(b: Board, c: Coord, r: Coord, dir: Direction): int
  {
    var sk := SkipTo(b, c, r, dir);
    if sk.Some? then Index(sk.value.0, sk.value.1) else 64
  }

  /** The skipping loop passes a square (c, r) not holding the side to move
      on to the next square (c', r'). */
  lemma SkipEndStep(b: Board, c: Coord, r: Coord, dir: Direction, c': Coord, r': Coord)
    requires Get(b, c, r) != b.turn
    requires (c < M && c' == c + 1 && r' == r) || (c == M && r < M && c' == 1 && r' == r + 1)
    ensures SkipEnd(b, c, r, dir) == SkipEnd(b, c', r', dir)
    ensures Index(c', r') == Index(c, r) + 1
  {
  }

  /** The skipping loop passes over no square of the side to move: it stops
      on the first one, or finds none. */
  lemma {:induction false} SkipToFirst(b: Board, c: Coord, r: Coord, dir: Direction)
    requires Succ(dir).Some?
    ensures NoOwnBetween(b, Index(c, r), SkipEnd(b, c, r, dir))
    decreases 64 - Index(c, r)
  {
    if Get(b, c, r) == b.turn {
      assert SkipEnd(b, c, r, dir) == Index(c, r);
    } else if c < M || r < M {
      var c', r' := if c < M then c + 1 else 1, if c < M then r else r + 1;
      SkipEndStep(b, c, r, dir, c', r');
      SkipToFirst(b, c', r', dir);
      NoOwnExtend(b, c, r, Index(c', r'), SkipEnd(b, c, r, dir));
    } else {
      assert SkipEnd(b, c, r, dir) == 64;
      NoOwnExtend(b, c, r, 64, 64);
    }
  }

  /** The square the skipping loop stops on, with an exhausted direction
      cursor, lies after the cursor it started from. */
  lemma SkipAdvances(b: Board, s: Cursor)
    requires SkipTo(b, s.c, s.r, s.dir).Some?
    ensures After(Cursor(SkipTo(b, s.c, s.r, s.dir).value.0, SkipTo(b, s.c, s.r, s.dir).value.1, NW), s)
  {
  }

  /** The direction loop of the iterator: try the directions after `dir` in
      order and stop at the first one giving a legal move. */
  function TryDirections(b: Board, c: Coord, r: Coord, dir: Direction): (res: Option<(Move, Direction)>)
    ensures res.Some? ==> Ord(res.value.1) > Ord(dir)
    ensures res.Some? ==> res.value.1 != NOWHERE && Yields(b, c, r, res.value.1)
                          && Candidate(b, c, r, res.value.1) == Some(res.value.0)
    decreases 8 - Ord(dir)
  {
    match Succ(dir)
    case None => None
    case Some(d) =>
      if Yields(b, c, r, d) then Some((Candidate(b, c, r, d).value, d))
      else TryDirections(b, c, r, d)
  }

  /** No direction after `dir` gives a legal move before the one the
      direction loop stops at, and none at all when it stops at none. */
  lemma {:induction false} TryDirectionsFirst(b: Board, c: Coord, r: Coord, dir: Direction, e: Direction)
    requires e != NOWHERE && Ord(dir) < Ord(e)
    requires TryDirections(b, c, r, dir).Some? ==> Ord(e) < Ord(TryDirections(b, c, r, dir).value.1)
    ensures !Yields(b, c, r, e)
    decreases 8 - Ord(dir)
  {
    var d := Succ(dir).value;
    OrdInjective(d, e);
    if Yields(b, c, r, d) {
      assert false;
    } else if d != e {
      TryDirectionsFirst(b, c, r, d, e);
    }
  }

  /** One advance of the iterator from cursor (c, r, dir): the next move and
      the cursor after it, or None at the end. */
  function Incr(b: Board, s: Cursor): Option<(Move, Cursor)>
    decreases Rank(s)
  {
    var sk := SkipTo(b, s.c, s.r, s.dir);
    if sk.None? then None
    else
      var u := Cursor(sk.value.0, sk.value.1, NW);
      // The reset of an exhausted cursor never fires: SkipTo only stops
      // while the cursor has a successor.
      var d0 := if Succ(s.dir).None? then NOWHERE else s.dir;
      var t := TryDirections(b, u.c, u.r, d0);
      if t.Some? then Some((t.value.0, u.(dir := t.value.1)))
      else
        SkipAdvances(b, s);
        RankDrops(s, u);
        Incr(b, u)
  }

  /** Each advance of the iterator moves its cursor forward. */
  lemma IncrAdvances(b: Board, s: Cursor)
    ensures Incr(b, s).Some? ==> After(Incr(b, s).value.1, s)
  {
    var sk := SkipTo(b, s.c, s.r, s.dir);
    if sk.Some? {
      var u := Cursor(sk.value.0, sk.value.1, NW);
      var d0 := if Succ(s.dir).None? then NOWHERE else s.dir;
      if TryDirections(b, u.c, u.r, d0).None? {
        assert Incr(b, s) == Incr(b, u);
        assert SkipTo(b, u.c, u.r, NW).None?;
      }
    }
  }

  /** Every move the iterator returns from cursor `s` on. */
  function Yielded(b: Board, s: Cursor): seq<Move>
    decreases Rank(s)
  {
    var next := Incr(b, s);
    if next.None? then []
    else
      IncrAdvances(b, s);
      RankDrops(s, next.value.1);
      [next.value.0] + Yielded(b, next.value.1)
  }

  /** The legal-move iterator of the board, as written. */
  function LegalMovesAsWritten(b: Board): seq<Move>
  {
    Yielded(b, Cursor(1, 1, NOWHERE))
  }

  // ---------------------------------------------------------------------
  // The moves of one square, and the generator as intended

  /** The legal moves of the piece on (c, r) in the directions after `d`. */
  function DirMoves(b: Board, c: Coord, r: Coord, d: Direction): (ms: seq<Move>)
    ensures forall i :: 0 <= i < |ms| ==> LegalFrom(b, ms[i], c, r)
    decreases 8 - Ord(d)
  {
    match Succ(d)
    case None => []
    case Some(e) =>
      if Yields(b, c, r, e) then
        YieldedMoveFacts(b, c, r, e);
        [Candidate(b, c, r, e).value] + DirMoves(b, c, r, e)
      else DirMoves(b, c, r, e)
  }

  /** The moves in the directions after `d` begin with the candidate of the
      next direction when it yields. */
  lemma DirMovesStep(b: Board, c: Coord, r: Coord, d: Direction, d': Direction)
    requires Succ(d) == Some(d')
    ensures DirMoves(b, c, r, d) ==
      (if Yields(b, c, r, d') then [Candidate(b, c, r, d').value] + DirMoves(b, c, r, d') else DirMoves(b, c, r, d'))
  {
  }

  /** The legal moves of the piece on (c, r), directions in scan order. */
  function MovesOfSquare(b: Board, c: Coord, r: Coord): seq<Move>
  {
    DirMoves(b, c, r, NOWHERE)
  }

  /** The square at position i of the scan order. */
  function SquareAt(i: nat): (s: (Coord, Coord))
    requires i < 64
    ensures Index(s.0, s.1) == i
  {
    if i < 8 then (i + 1, 1)
    else
      var s := SquareAt(i - 8);
      (s.0, s.1 + 1)
  }

  /** The legal moves of the side to move from the squares at positions
      i .. 63 of the scan order. */
  function ScanFrom(b: Board, i: nat): (ms: seq<Move>)
    ensures forall k :: 0 <= k < |ms| ==> IsLegal(b, ms[k]) && ReadsBoard(b, ms[k])
    decreases 64 - i
  {
    if i >= 64 then []
    else
      var s := SquareAt(i);
      (if Get(b, s.0, s.1) == b.turn then MovesOfSquare(b, s.0, s.1) else []) + ScanFrom(b, i + 1)
  }

  /** Every legal move of the side to move: squares in scan order, and for
      each square the directions in scan order. This is the iterator with its
      direction cursor reset whenever the scan moves to another square. */
  function AllLegalMoves(b: Board): seq<Move>
  {
    ScanFrom(b, 0)
  }

  // ---------------------------------------------------------------------
  // What the iterator as written returns

  /** The moves of one square in the directions after `d` are the first
      direction loop's move followed by the moves after its direction. */
  lemma {:induction false} DirMovesByTry(b: Board, c: Coord, r: Coord, d: Direction)
    ensures var t := TryDirections(b, c, r, d);
      DirMoves(b, c, r, d) == (if t.None? then [] else [t.value.0] + DirMoves(b, c, r, t.value.1))
    decreases 8 - Ord(d)
  {
    match Succ(d)
    case None =>
    case Some(e) =>
      if !Yields(b, c, r, e) {
        DirMovesByTry(b, c, r, e);
      }
  }

  /** Once the iterator stands on a piece of the side to move, it returns
      that piece's moves in the remaining directions, and then stops. */
  lemma {:induction false} YieldedFromOwnSquare(b: Board, c: Coord, r: Coord, d: Direction)
    requires Get(b, c, r) == b.turn
    ensures Yielded(b, Cursor(c, r, d)) == DirMoves(b, c, r, d)
    decreases 8 - Ord(d)
  {
    var s := Cursor(c, r, d);
    match Succ(d)
    case None =>
      assert Incr(b, s).None?;
    case Some(e) =>
      assert SkipTo(b, c, r, d) == Some((c, r));
      DirMovesByTry(b, c, r, d);
      var t := TryDirections(b, c, r, d);
      if t.Some? {
        assert Incr(b, s) == Some((t.value.0, Cursor(c, r, t.value.1)));
        YieldedFromOwnSquare(b, c, r, t.value.1);
      } else {
        assert SkipTo(b, c, r, NW).None?;
        assert Incr(b, Cursor(c, r, NW)).None?;
        assert Incr(b, s).None?;
      }
  }

  /** The first square of the side to move in scan order, if any. */
  function FirstOwnSquare(b: Board): (res: Option<(Coord, Coord)>)
    ensures res.Some? ==> Get(b, res.value.0, res.value.1) == b.turn
    ensures res.Some? ==> forall c: Coord, r: Coord ::
              Index(c, r) < Index(res.value.0, res.value.1) ==> Get(b, c, r) != b.turn
    ensures res.None? ==> forall c: Coord, r: Coord :: Get(b, c, r) != b.turn
  {
    SkipToFirst(b, 1, 1, NOWHERE);
    SkipTo(b, 1, 1, NOWHERE)
  }

  /** Two cursors with the same next advance return the same moves. */
  lemma YieldedFollowsIncr(b: Board, s: Cursor, t: Cursor)
    requires Incr(b, s) == Incr(b, t)
    ensures Yielded(b, s) == Yielded(b, t)
  {
  }

  /** Skipping from (1, 1) lands on the first piece of the side to move. */
  lemma SkipFromStart(b: Board)
    requires FirstOwnSquare(b).Some?
    ensures var f := FirstOwnSquare(b).value;
      Incr(b, Cursor(1, 1, NOWHERE)) == Incr(b, Cursor(f.0, f.1, NOWHERE))
  {
    var f := FirstOwnSquare(b).value;
    assert SkipTo(b, f.0, f.1, NOWHERE) == Some(f);
  }

  /** The iterator as written returns exactly the moves of the first piece
      of the side to move, and none of any other piece. */
  lemma AsWrittenIsFirstPieceOnly(b: Board)
    ensures var f := FirstOwnSquare(b);
      LegalMovesAsWritten(b) == (if f.None? then [] else MovesOfSquare(b, f.value.0, f.value.1))
  {
    var f := FirstOwnSquare(b);
    var s := Cursor(1, 1, NOWHERE);
    if f.Some? {
      var t := Cursor(f.value.0, f.value.1, NOWHERE);
      SkipFromStart(b);
      YieldedFollowsIncr(b, s, t);
      YieldedFromOwnSquare(b, f.value.0, f.value.1, NOWHERE);
    } else {
      assert Incr(b, s).None?;
    }
  }

  /** Every move the iterator as written returns is legal. */
  lemma AsWrittenSound(b: Board, m: Move)
    requires m in LegalMovesAsWritten(b)
    ensures IsLegal(b, m) && ReadsBoard(b, m)
  {
    AsWrittenIsFirstPieceOnly(b);
  }

  /** The board's test for a legal move: the iterator has a first element. */
  function HasLegalMoveAsWritten(b: Board): (r: bool)
    ensures r ==> exists m :: IsLegal(b, m) && ReadsBoard(b, m)
  {
    var ms := LegalMovesAsWritten(b);
    if |ms| > 0 then AsWrittenSound(b, ms[0]); true
    else false
  }

  // ---------------------------------------------------------------------
  // The generator as intended finds every legal move

  /** A legal move that reads the board is the candidate the generator builds
      for its origin and its direction. */
  lemma LegalMoveIsCandidate(b: Board, m: Move)
    requires IsLegal(b, m) && ReadsBoard(b, m)
    ensures var e := MoveDirection(m);
      e != NOWHERE && Yields(b, m.col0, m.row0, e) && Candidate(b, m.col0, m.row0, e) == Some(m)
  {
    LegalMoveLeavesOrigin(b, m);
    AlignedSteps(m);
    var e := MoveDirection(m);
    var L := PieceCountAlong(b, m.col0, m.row0, e);
    assert L == m.Length();
    assert CreateAlong(b, m.col0, m.row0, L, e) == CreateMove(b, m.col0, m.row0, m.col1, m.row1);
  }

  /** The candidate of a yielding direction after `d` is among the moves of
      its square in the directions after `d`. */
  lemma {:induction false} CandidateInDirMoves(b: Board, c: Coord, r: Coord, d: Direction, e: Direction)
    requires e != NOWHERE && Ord(d) < Ord(e) && Yields(b, c, r, e)
    ensures Candidate(b, c, r, e).value in DirMoves(b, c, r, d)
    decreases 8 - Ord(d)
  {
    var d' := Succ(d).value;
    DirMovesStep(b, c, r, d, d');
    OrdInjective(d', e);
    if d' != e {
      CandidateInDirMoves(b, c, r, d', e);
    }
  }

  /** Scan position and square correspond one to one. */
  lemma {:induction false} SquareAtIndex(c: Coord, r: Coord)
    ensures SquareAt(Index(c, r)) == (c, r)
  {
    var i := Index(c, r);
    if r == 1 {
      assert i == c - 1;
    } else {
      assert i - 8 == Index(c, r - 1);
      SquareAtIndex(c, r - 1);
      assert SquareAt(i) == (c, r - 1 + 1);
    }
  }

  /** The moves of a square of the side to move at scan position i or later
      are among the moves scanned from position i. */
  lemma {:induction false} SquareMovesInScan(b: Board, i: nat, c: Coord, r: Coord, m: Move)
    requires Get(b, c, r) == b.turn && i <= Index(c, r) && m in MovesOfSquare(b, c, r)
    ensures m in ScanFrom(b, i)
    decreases 64 - i
  {
    var here := if Get(b, SquareAt(i).0, SquareAt(i).1) == b.turn
                then MovesOfSquare(b, SquareAt(i).0, SquareAt(i).1) else [];
    assert ScanFrom(b, i) == here + ScanFrom(b, i + 1);
    if i < Index(c, r) {
      SquareMovesInScan(b, i + 1, c, r, m);
    } else {
      SquareAtIndex(c, r);
      assert m in here;
    }
  }

  /** The generator as intended returns exactly the legal moves of the side
      to move. */
  lemma AllLegalMovesExact(b: Board, m: Move)
    ensures m in AllLegalMoves(b) <==> IsLegal(b, m) && ReadsBoard(b, m)
  {
    if IsLegal(b, m) && ReadsBoard(b, m) {
      LegalMoveIsCandidate(b, m);
      CandidateInDirMoves(b, m.col0, m.row0, NOWHERE, MoveDirection(m));
      SquareMovesInScan(b, 0, m.col0, m.row0, m);
    }
  }

  /** The board's test for a legal move, on the generator as intended. */
  function HasLegalMove(b: Board): bool
  {
    |AllLegalMoves(b)| > 0
  }

  /** Any legal move of the side to move makes the test hold. */
  lemma HasLegalMoveComplete(b: Board, m: Move)
    requires IsLegal(b, m) && ReadsBoard(b, m)
    ensures HasLegalMove(b)
  {
    AllLegalMovesExact(b, m);
  }

  /** When the test holds, the first move generated is legal. */
  lemma HasLegalMoveSound(b: Board)
    requires HasLegalMove(b)
    ensures IsLegal(b, AllLegalMoves(b)[0]) && ReadsBoard(b, AllLegalMoves(b)[0])
  {
    AllLegalMovesExact(b, AllLegalMoves(b)[0]);
  }

  /** Every move the iterator as written returns starts on the first piece
      of the side to move. */
  lemma AsWrittenMovesStartOnFirstPiece(b: Board, m: Move)
    requires m in LegalMovesAsWritten(b)
    ensures FirstOwnSquare(b).Some? && m.Origin() == Sq(FirstOwnSquare(b).value.0, FirstOwnSquare(b).value.1)
  {
    var ms := LegalMovesAsWritten(b);
    var i :| 0 <= i < |ms| && ms[i] == m;
    AsWrittenIsFirstPieceOnly(b);
    var f := FirstOwnSquare(b);
    assert f.Some?;
    assert ms == MovesOfSquare(b, f.value.0, f.value.1);
  }
}
