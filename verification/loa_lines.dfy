/** What the counting and blocking walks of the board compute, stated
    without walks: sums and quantifiers over the offsets along a line. */
module LoaLines {

  import opened LoaTypes
  import opened LoaBoard

  /** The piece `k` steps of (dc, dr) away from (c, r), EMP off the board. */
  function PieceAlong(b: Board, c: int, r: int, dc: int, dr: int, k: int): Piece
  {
    PieceAt(b, c + Scale(k, dc), r + Scale(k, dr))
  }

  function Occ(p: Piece): nat
  {
    if p != EMP then 1 else 0
  }

  /** Occupied squares among the offsets lo .. hi - 1 of the line. */
  function OccSum(b: Board, c: int, r: int, dc: int, dr: int, lo: int, hi: int): nat
    decreases hi - lo
  {
    if lo >= hi then 0
    else Occ(PieceAlong(b, c, r, dc, dr, lo)) + OccSum(b, c, r, dc, dr, lo + 1, hi)
  }

  /** The pieces on the whole line of action through (c, r): the square
      itself, the seven squares ahead and the seven squares behind (the board
      has eight columns, so no square of the line is further away). */
  function LineCount(b: Board, c: int, r: int, dc: int, dr: int): nat
  {
    Occ(PieceAt(b, c, r)) + OccSum(b, c, r, dc, dr, 1, 8) + OccSum(b, c, r, -dc, -dr, 1, 8)
  }

  /** Off the board, eight steps from any square of the board. */
  lemma EightStepsLeave(c: int, r: int, dc: int, dr: int)
    requires InBounds(c, r) && IsUnit(dc, dr)
    ensures !InBounds(c + Scale(8, dc), r + Scale(8, dr))
  {
  }

  /** Once a walk from a square of the board has left it, it stays off. */
  lemma StaysOff(c: int, r: int, dc: int, dr: int, k: int)
    requires InBounds(c, r) && IsUnit(dc, dr) && 0 <= k
    requires !InBounds(c + Scale(k, dc), r + Scale(k, dr))
    ensures !InBounds(c + Scale(k + 1, dc), r + Scale(k + 1, dr))
  {
  }

  lemma {:induction false} OccSumOff(b: Board, c: int, r: int, dc: int, dr: int, k: int)
    requires InBounds(c, r) && IsUnit(dc, dr) && 0 <= k
    requires !InBounds(c + Scale(k, dc), r + Scale(k, dr))
    ensures OccSum(b, c, r, dc, dr, k, 8) == 0
    decreases 8 - k
  {
    if k < 8 {
      StaysOff(c, r, dc, dr, k);
      OccSumOff(b, c, r, dc, dr, k + 1);
    }
  }

  lemma ScaleNext(k: int, d: int)
    requires -1 <= d <= 1
    ensures Scale(k, d) + d == Scale(k + 1, d)
  {
  }

  /** One step of the walk: the square itself, then the rest of the walk
      from the next square (x', y'). */
  lemma WalkStep(b: Board, x: int, y: int, dc: int, dr: int, x': int, y': int)
    requires IsUnit(dc, dr) && x' == x + dc && y' == y + dr
    ensures Walk(b, x, y, dc, dr)
         == if InBounds(x, y) then Occ(PieceAt(b, x, y)) + Walk(b, x', y', dc, dr) else 0
  {
  }

  /** The first term of a sum of occupied squares. */
  lemma OccSumStep(b: Board, c: int, r: int, dc: int, dr: int, k: int, k': int)
    requires k < 8 && k' == k + 1
    ensures OccSum(b, c, r, dc, dr, k, 8) == Occ(PieceAlong(b, c, r, dc, dr, k)) + OccSum(b, c, r, dc, dr, k', 8)
  {
  }

  /** The step of the walk/sum correspondence when the square at offset k,
      (x, y), is on the board; (x', y') is the square at offset k + 1. */
  lemma WalkOccStepOn(b: Board, c: int, r: int, dc: int, dr: int, k: int,
                      x: int, y: int, x': int, y': int)
    requires InBounds(c, r) && IsUnit(dc, dr) && 0 <= k < 8
    requires x == c + Scale(k, dc) && y == r + Scale(k, dr) && InBounds(x, y)
    requires x' == c + Scale(k + 1, dc) && y' == r + Scale(k + 1, dr)
    requires Walk(b, x', y', dc, dr) == OccSum(b, c, r, dc, dr, k + 1, 8)
    ensures Walk(b, x, y, dc, dr) == OccSum(b, c, r, dc, dr, k, 8)
  {
    ScaleNext(k, dc);
    ScaleNext(k, dr);
    WalkStep(b, x, y, dc, dr, x', y');
    OccSumStep(b, c, r, dc, dr, k, k + 1);
  }

  /** The same step when the square at offset k is off the board. */
  lemma WalkOccStepOff(b: Board, c: int, r: int, dc: int, dr: int, k: int, x: int, y: int)
    requires InBounds(c, r) && IsUnit(dc, dr) && 0 <= k < 8
    requires x == c + Scale(k, dc) && y == r + Scale(k, dr) && !InBounds(x, y)
    ensures Walk(b, x, y, dc, dr) == OccSum(b, c, r, dc, dr, k, 8)
  {
    OccSumOff(b, c, r, dc, dr, k);
  }

  /** If the walk from offset k + 1 counts the occupied squares at offsets
      k + 1 .. 7, the walk from offset k counts those at offsets k .. 7. */
  lemma WalkOccStep(b: Board, c: int, r: int, dc: int, dr: int, k: int)
    requires InBounds(c, r) && IsUnit(dc, dr) && 0 <= k < 8
    requires Walk(b, c + Scale(k + 1, dc), r + Scale(k + 1, dr), dc, dr) == OccSum(b, c, r, dc, dr, k + 1, 8)
    ensures Walk(b, c + Scale(k, dc), r + Scale(k, dr), dc, dr) == OccSum(b, c, r, dc, dr, k, 8)
  {
    var x, y := c + Scale(k, dc), r + Scale(k, dr);
    if InBounds(x, y) {
      WalkOccStepOn(b, c, r, dc, dr, k, x, y, c + Scale(k + 1, dc), r + Scale(k + 1, dr));
    } else {
      WalkOccStepOff(b, c, r, dc, dr, k, x, y);
    }
  }

  /** The walk of the board from offset k to the edge counts the occupied
      squares at offsets k .. 7. */
  lemma {:induction false} WalkIsOccSum(b: Board, c: int, r: int, dc: int, dr: int, k: int)
    requires InBounds(c, r) && IsUnit(dc, dr) && 0 <= k <= 8
    ensures Walk(b, c + Scale(k, dc), r + Scale(k, dr), dc, dr) == OccSum(b, c, r, dc, dr, k, 8)
    decreases 8 - k
  {
    if k == 8 {
      EightStepsLeave(c, r, dc, dr);
    } else {
      WalkIsOccSum(b, c, r, dc, dr, k + 1);
      WalkOccStep(b, c, r, dc, dr, k);
    }
  }

  /** A walk from a square of the board counts that square, then the
      occupied squares at offsets 1 .. 7. */
  lemma WalkFromSquare(b: Board, c: int, r: int, dc: int, dr: int)
    requires InBounds(c, r) && IsUnit(dc, dr)
    ensures Walk(b, c, r, dc, dr) == Occ(PieceAt(b, c, r)) + OccSum(b, c, r, dc, dr, 1, 8)
  {
    WalkIsOccSum(b, c, r, dc, dr, 0);
    assert c + Scale(0, dc) == c && r + Scale(0, dr) == r;
    assert PieceAlong(b, c, r, dc, dr, 0) == PieceAt(b, c, r);
    assert OccSum(b, c, r, dc, dr, 0, 8)
        == Occ(PieceAlong(b, c, r, dc, dr, 0)) + OccSum(b, c, r, dc, dr, 1, 8);
  }

  /** The line count, with the reverse direction (ec, er) named. */
  lemma LineCountParts(b: Board, c: Coord, r: Coord, dc: int, dr: int, ec: int, er: int)
    requires ec == -dc && er == -dr
    ensures LineCount(b, c, r, dc, dr)
         == Occ(PieceAt(b, c, r)) + OccSum(b, c, r, dc, dr, 1, 8) + OccSum(b, c, r, ec, er, 1, 8)
  {
  }

  /** Two walks from the same square of the board, with the square itself
      counted once. */
  lemma WalksFromSquare(b: Board, c: Coord, r: Coord, dc: int, dr: int, ec: int, er: int)
    requires IsUnit(dc, dr) && IsUnit(ec, er)
    ensures Walk(b, c, r, dc, dr) + Walk(b, c, r, ec, er) - Occ(Get(b, c, r))
         == Occ(PieceAt(b, c, r)) + OccSum(b, c, r, dc, dr, 1, 8) + OccSum(b, c, r, ec, er, 1, 8)
  {
    assert PieceAt(b, c, r) == Get(b, c, r);
    WalkFromSquare(b, c, r, dc, dr);
    WalkFromSquare(b, c, r, ec, er);
  }

  /** Walking both ways from a square of the board, counting the square
      once, gives the pieces on the whole line through it. */
  lemma TwoWalks(b: Board, c: Coord, r: Coord, dc: int, dr: int, ec: int, er: int)
    requires IsUnit(dc, dr) && ec == -dc && er == -dr
    ensures Walk(b, c, r, dc, dr) + Walk(b, c, r, ec, er) - Occ(Get(b, c, r)) == LineCount(b, c, r, dc, dr)
  {
    WalksFromSquare(b, c, r, dc, dr, ec, er);
    LineCountParts(b, c, r, dc, dr, ec, er);
  }

  /** The board's two-way count as two walks less the square itself. */
  lemma PieceCountParts(b: Board, c: Coord, r: Coord, dir: Direction)
    requires dir != NOWHERE
    ensures IsUnit(DC(dir), DR(dir)) && IsUnit(-DC(dir), -DR(dir))
    ensures PieceCountAlong(b, c, r, dir)
         == Walk(b, c, r, DC(dir), DR(dir)) + Walk(b, c, r, -DC(dir), -DR(dir)) - Occ(Get(b, c, r))
  {
    DirectionSteps(dir);
  }

  /** The board's two-way count equals the number of pieces on the whole line
      through (c, r), with (c, r) counted once. */
  lemma PieceCountAlongIsLineCount(b: Board, c: Coord, r: Coord, dir: Direction)
    requires dir != NOWHERE
    ensures PieceCountAlong(b, c, r, dir) == LineCount(b, c, r, DC(dir), DR(dir))
  {
    PieceCountParts(b, c, r, dir);
    TwoWalks(b, c, r, DC(dir), DR(dir), -DC(dir), -DR(dir));
  }

  /** One step along a line, to (c', r'), then k more, is k + 1 steps. */
  lemma ShiftAlong(b: Board, c: int, r: int, dc: int, dr: int, k: int, c': int, r': int)
    requires -1 <= dc <= 1 && -1 <= dr <= 1 && c' == c + dc && r' == r + dr
    ensures PieceAlong(b, c', r', dc, dr, k) == PieceAlong(b, c, r, dc, dr, k + 1)
  {
  }

  /** `opp` stands at one of the offsets 0 .. n - 1 of the line from (c, r). */
  predicate OppWithin(b: Board, c: int, r: int, dc: int, dr: int, n: int, opp: Piece)
  {
    exists k :: 0 <= k < n && PieceAlong(b, c, r, dc, dr, k) == opp
  }

  /** Offsets 0 .. n - 1 from (c, r) are (c, r) itself and offsets
      0 .. n - 2 from the next square (c', r'). */
  lemma OppWithinStep(b: Board, c: int, r: int, dc: int, dr: int, n: int, opp: Piece, c': int, r': int)
    requires -1 <= dc <= 1 && -1 <= dr <= 1 && c' == c + dc && r' == r + dr && n > 0
    ensures OppWithin(b, c, r, dc, dr, n, opp)
        <==> PieceAt(b, c, r) == opp || OppWithin(b, c', r', dc, dr, n - 1, opp)
  {
    assert PieceAlong(b, c, r, dc, dr, 0) == PieceAt(b, c, r);
    if OppWithin(b, c, r, dc, dr, n, opp) && PieceAt(b, c, r) != opp {
      var k :| 0 <= k < n && PieceAlong(b, c, r, dc, dr, k) == opp;
      ShiftAlong(b, c, r, dc, dr, k - 1, c', r');
      assert PieceAlong(b, c', r', dc, dr, k - 1) == opp;
    }
    if OppWithin(b, c', r', dc, dr, n - 1, opp) {
      var k :| 0 <= k < n - 1 && PieceAlong(b, c', r', dc, dr, k) == opp;
      ShiftAlong(b, c, r, dc, dr, k, c', r');
      assert PieceAlong(b, c, r, dc, dr, k + 1) == opp;
    }
  }

  /** A step from a square short of the end of a line stays on the line,
      one step closer to its end. */
  lemma AheadStep(c: int, r: int, dc: int, dr: int, c1: Coord, r1: Coord, c': int, r': int)
    requires InBounds(c, r) && Ahead(c, r, dc, dr, c1, r1) && (c != c1 || r != r1)
    requires c' == c + dc && r' == r + dr
    ensures InBounds(c', r') && Ahead(c', r', dc, dr, c1, r1)
    ensures Dist(c', r', c1, r1) == Dist(c, r, c1, r1) - 1
  {
  }

  /** One step of the blocking walk short of its end (c1, r1). */
  lemma BlockedBetweenStep(b: Board, c: int, r: int, dc: int, dr: int,
                           c1: Coord, r1: Coord, opp: Piece, c': int, r': int)
    requires InBounds(c, r) && Ahead(c, r, dc, dr, c1, r1) && (c != c1 || r != r1)
    requires c' == c + dc && r' == r + dr
    requires InBounds(c', r') && Ahead(c', r', dc, dr, c1, r1)
    ensures BlockedBetween(b, c, r, dc, dr, c1, r1, opp)
        == (PieceAt(b, c, r) == opp || BlockedBetween(b, c', r', dc, dr, c1, r1, opp))
  {
  }

  /** The blocking walk finds `opp` exactly when it stands at one of the
      offsets 0 .. n - 1 from its starting square, n steps short of (c1, r1). */
  lemma {:induction false} BlockedBetweenMeaning(b: Board, c: int, r: int, dc: int, dr: int,
                                                 c1: Coord, r1: Coord, opp: Piece)
    requires InBounds(c, r) && Ahead(c, r, dc, dr, c1, r1)
    ensures BlockedBetween(b, c, r, dc, dr, c1, r1, opp) <==> OppWithin(b, c, r, dc, dr, Dist(c, r, c1, r1), opp)
    decreases Dist(c, r, c1, r1)
  {
    if c != c1 || r != r1 {
      var c', r' := c + dc, r + dr;
      AheadStep(c, r, dc, dr, c1, r1, c', r');
      BlockedBetweenStep(b, c, r, dc, dr, c1, r1, opp, c', r');
      BlockedBetweenMeaning(b, c', r', dc, dr, c1, r1, opp);
      OppWithinStep(b, c, r, dc, dr, Dist(c, r, c1, r1), opp, c', r');
    }
  }

  /** No piece of the mover's opponent stands strictly between the origin and
      the destination of `m`. */
  predicate PathClear(b: Board, m: Move)
  {
    var dc, dr := Delta(m.col0, m.col1), Delta(m.row0, m.row1);
    forall k :: 0 < k < m.Length() ==> PieceAlong(b, m.col0, m.row0, dc, dr, k) != Opposite(m.moved)
  }

  /** The squares strictly between the ends of a move, counted from the
      square next to its origin. */
  lemma PathClearShift(b: Board, m: Move, dc: int, dr: int, c': int, r': int, opp: Piece)
    requires dc == Delta(m.col0, m.col1) && dr == Delta(m.row0, m.row1)
    requires c' == m.col0 + dc && r' == m.row0 + dr && opp == Opposite(m.moved)
    ensures PathClear(b, m) <==> !OppWithin(b, c', r', dc, dr, m.Length() - 1, opp)
  {
    if !PathClear(b, m) {
      var k :| 0 < k < m.Length() && PieceAlong(b, m.col0, m.row0, dc, dr, k) == opp;
      ShiftAlong(b, m.col0, m.row0, dc, dr, k - 1, c', r');
      assert PieceAlong(b, c', r', dc, dr, k - 1) == opp;
    }
    if OppWithin(b, c', r', dc, dr, m.Length() - 1, opp) {
      var k :| 0 <= k < m.Length() - 1 && PieceAlong(b, c', r', dc, dr, k) == opp;
      ShiftAlong(b, m.col0, m.row0, dc, dr, k, c', r');
      assert PieceAlong(b, m.col0, m.row0, dc, dr, k + 1) == opp;
    }
  }

  /** The blocking walk of a move starts next to its origin, one step
      short of its length. */
  lemma BlockedStart(b: Board, m: Move, dc: int, dr: int, c': int, r': int)
    requires Aligned(m) && dc == Delta(m.col0, m.col1) && dr == Delta(m.row0, m.row1)
    requires c' == m.col0 + dc && r' == m.row0 + dr
    ensures InBounds(c', r') && Ahead(c', r', dc, dr, m.col1, m.row1)
    ensures Dist(c', r', m.col1, m.row1) == if m.Length() == 0 then 0 else m.Length() - 1
    ensures Blocked(b, m) == (BlockedBetween(b, c', r', dc, dr, m.col1, m.row1, Opposite(m.moved))
                              || m.replaced == m.moved)
  {
  }

  /** The blocking test of the board fails exactly when the path is clear and
      the destination did not hold a piece of the mover's side. */
  lemma BlockedMeaning(b: Board, m: Move)
    requires Aligned(m)
    ensures !Blocked(b, m) <==> PathClear(b, m) && m.replaced != m.moved
  {
    var dc, dr := Delta(m.col0, m.col1), Delta(m.row0, m.row1);
    var c', r' := m.col0 + dc, m.row0 + dr;
    var opp := Opposite(m.moved);
    BlockedStart(b, m, dc, dr, c', r');
    BlockedBetweenMeaning(b, c', r', dc, dr, m.col1, m.row1, opp);
    PathClearShift(b, m, dc, dr, c', r', opp);
  }

  /** The movement rule of Lines of Action, as the board checks it: the mover
      is the side to move, the move follows a row, column or diagonal, its
      length is the number of pieces anywhere on that line, it jumps no
      opposing piece and it does not land on a piece of its own side. */
  lemma IsLegalMeaning(b: Board, m: Move)
    ensures IsLegal(b, m) <==>
      && m.moved == b.turn
      && Aligned(m)
      && m.Length() == LineCount(b, m.col0, m.row0, DC(MoveDirection(m)), DR(MoveDirection(m)))
      && PathClear(b, m)
      && m.replaced != m.moved
  {
    PieceCountAlongIsLineCount(b, m.col0, m.row0, MoveDirection(m));
    if Aligned(m) {
      BlockedMeaning(b, m);
    }
  }
}
