/** The Lines of Action board: an 8x8 grid of pieces, the side to move, the
    stack of moves made and not retracted, and the winner recorded by the last
    game-over test. Every mutator of the Java class becomes a function from
    the old board to the new one. */
module LoaBoard {

  import opened Results
  import opened LoaTypes

  /** Eight rows of eight squares; element [r - 1][c - 1] holds square (c, r),
      so the bottom row comes first. */
  type Grid = g: seq<seq<Piece>> | |g| == 8 && forall i :: 0 <= i < |g| ==> |g[i]| == 8
    witness seq(8, i => seq(8, j => EMP))

  datatype Board = Board(grid: Grid, turn: Piece, moves: seq<Move>, winner: Piece)

  /** The board a fresh Java object starts from before any initializer runs. */
  function Blank(): Board
  {
    Board(seq(8, i => seq(8, j => EMP)), EMP, [], EMP)
  }

  /** Contents of column c, row r. */
  function Get(b: Board, c: Coord, r: Coord): Piece
  {
    b.grid[r - 1][c - 1]
  }

  /** Contents of (c, r), or EMP for a square off the board. */
  function PieceAt(b: Board, c: int, r: int): Piece
  {
    if InBounds(c, r) then Get(b, c, r) else EMP
  }

  /** True when boards `a` and `b` agree on every square except possibly the
      ones listed in `except`. */
  predicate SameSquaresExcept(a: Board, b: Board, except: set<Square>)
  {
    forall c: Coord, r: Coord :: Sq(c, r) !in except ==> Get(a, c, r) == Get(b, c, r)
  }

  // ---------------------------------------------------------------------
  // Square designators

  const BadSquare: string := "bad square designator"

  /** The designator pattern: one letter a-h, then one digit 1-8, nothing else. */
  predicate IsDesignator(sq: string)
  {
    |sq| == 2 && 'a' <= sq[0] <= 'h' && '1' <= sq[1] <= '8'
  }

  /** Column number of designator `sq`; a malformed designator is an error. */
  function Col(sq: string): (r: Result<Coord, string>)
    ensures r.Success? <==> IsDesignator(sq)
    ensures r.Failure? ==> r.error == BadSquare
  {
    if !IsDesignator(sq) then Failure(BadSquare)
    else Success(sq[0] as int - 'a' as int + 1)
  }

  /** Row number of designator `sq`; a malformed designator is an error. */
  function Row(sq: string): (r: Result<Coord, string>)
    ensures r.Success? <==> IsDesignator(sq)
    ensures r.Failure? ==> r.error == BadSquare
  {
    if !IsDesignator(sq) then Failure(BadSquare)
    else Success(sq[1] as int - '0' as int)
  }

  /** The printed name of square (c, r), such as "c7". */
  function Designator(c: Coord, r: Coord): string
  {
    [('a' as int + c - 1) as char, ('0' as int + r) as char]
  }

  /** Parsing the name of a square gives back its column and row. */
  lemma DesignatorRoundTrip(c: Coord, r: Coord)
    ensures IsDesignator(Designator(c, r))
    ensures Col(Designator(c, r)) == Success(c)
    ensures Row(Designator(c, r)) == Success(r)
  {
  }

  /** Every accepted designator is the name of the square it parses to, so
      parsing is injective on accepted text. */
  lemma DesignatorParsed(sq: string)
    requires IsDesignator(sq)
    ensures Designator(Col(sq).value, Row(sq).value) == sq
  {
    var d := Designator(Col(sq).value, Row(sq).value);
    assert d[0] == sq[0] && d[1] == sq[1];
  }

  /** Contents of the square named `sq`. */
  function GetSquare(b: Board, sq: string): (r: Result<Piece, string>)
    ensures r.Success? <==> IsDesignator(sq)
    ensures r.Success? ==> r.value == Get(b, Col(sq).value, Row(sq).value)
  {
    match Col(sq)
    case Failure(e) => Failure(e)
    case Success(c) =>
      match Row(sq)
      case Failure(e) => Failure(e)
      case Success(r) => Success(Get(b, c, r))
  }

  // ---------------------------------------------------------------------
  // In-place edits

  /** Put `v` on (c, r) and, when `next` is present, make it the side to move. */
  function Set(b: Board, c: Coord, r: Coord, v: Piece, next: Option<Piece>): (b': Board)
    ensures Get(b', c, r) == v
    ensures SameSquaresExcept(b', b, {Sq(c, r)})
    ensures b'.turn == (if next.Some? then next.value else b.turn)
    ensures b'.moves == b.moves && b'.winner == b.winner
  {
    b.(grid := b.grid[r - 1 := b.grid[r - 1][c - 1 := v]],
       turn := if next.Some? then next.value else b.turn)
  }

  /** Reset `b` to `contents` with `side` to move and no moves made. The
      recorded winner is not touched. */
  function Initialize(b: Board, contents: Grid, side: Piece): (b': Board)
    ensures forall c: Coord, r: Coord :: Get(b', c, r) == contents[r - 1][c - 1]
    ensures b'.turn == side && |b'.moves| == 0
    ensures b'.winner == b.winner
  {
    Board(contents, side, [], b.winner)
  }

  /** A new board holding `contents` with `side` to move. */
  function NewBoard(contents: Grid, side: Piece): (b: Board)
    ensures forall c: Coord, r: Coord :: Get(b, c, r) == contents[r - 1][c - 1]
    ensures b.turn == side && |b.moves| == 0 && b.winner == EMP
  {
    Initialize(Blank(), contents, side)
  }

  /** The standard starting layout, bottom row first. */
  const InitialPieces: Grid := [
    [EMP, BP,  BP,  BP,  BP,  BP,  BP,  EMP],
    [WP,  EMP, EMP, EMP, EMP, EMP, EMP, WP ],
    [WP,  EMP, EMP, EMP, EMP, EMP, EMP, WP ],
    [WP,  EMP, EMP, EMP, EMP, EMP, EMP, WP ],
    [WP,  EMP, EMP, EMP, EMP, EMP, EMP, WP ],
    [WP,  EMP, EMP, EMP, EMP, EMP, EMP, WP ],
    [WP,  EMP, EMP, EMP, EMP, EMP, EMP, WP ],
    [EMP, BP,  BP,  BP,  BP,  BP,  BP,  EMP]
  ]

  /** Reset `b` to the standard starting position, black to move. */
  function Clear(b: Board): Board
  {
    Initialize(b, InitialPieces, BP)
  }

  /** A new board in the standard starting position. */
  function StandardBoard(): Board
  {
    Clear(Blank())
  }

  /** The starting layout in words: black on rows 1 and 8 except the corners,
      white on columns 1 and 8 except the corners, everything else empty. */
  function StandardContents(c: Coord, r: Coord): Piece
  {
    if (r == 1 || r == 8) && 2 <= c <= 7 then BP
    else if (c == 1 || c == 8) && 2 <= r <= 7 then WP
    else EMP
  }

  lemma StandardLayout(b: Board)
    ensures forall c: Coord, r: Coord :: Get(Clear(b), c, r) == StandardContents(c, r)
    ensures Clear(b).turn == BP && |Clear(b).moves| == 0
  {
    forall c: Coord, r: Coord
      ensures Get(Clear(b), c, r) == StandardContents(c, r)
    {
      var row := InitialPieces[r - 1];
      if r == 1 || r == 8 {
        assert row == [EMP, BP, BP, BP, BP, BP, BP, EMP];
      } else {
        assert row == [WP, EMP, EMP, EMP, EMP, EMP, EMP, WP];
      }
    }
  }

  /** Copy the position, side to move and move history of `src` into `dst`;
      the winner recorded in `dst` stays. Copying a board onto itself changes
      nothing. */
  function CopyFrom(dst: Board, src: Board): (b': Board)
    ensures Equals(b', src)
    ensures b'.moves == src.moves
    ensures b'.winner == dst.winner
  {
    if dst == src then dst
    else Initialize(dst, src.grid, src.turn).(moves := src.moves)
  }

  /** Board equality as the Java class defines it: same side to move and same
      contents on every square; history and winner are ignored. */
  predicate Equals(a: Board, b: Board)
  {
    a.turn == b.turn && forall c: Coord, r: Coord :: Get(b, c, r) == Get(a, c, r)
  }

  /** Equal boards are exactly those with the same grid and the same turn. */
  lemma EqualsMeansSameGridAndTurn(a: Board, b: Board)
    ensures Equals(a, b) <==> a.grid == b.grid && a.turn == b.turn
  {
    if Equals(a, b) {
      forall i | 0 <= i < 8
        ensures a.grid[i] == b.grid[i]
      {
        forall j | 0 <= j < 8
          ensures a.grid[i][j] == b.grid[i][j]
        {
          assert Get(a, j + 1, i + 1) == Get(b, j + 1, i + 1);
        }
      }
    }
  }

  /** Number of moves made and not retracted. */
  function MovesMade(b: Board): nat
  {
    |b.moves|
  }

  // ---------------------------------------------------------------------
  // Moves

  /** A move reads the board when its recorded pieces are the ones on its
      origin and destination squares. */
  predicate ReadsBoard(b: Board, m: Move)
  {
    m.moved == Get(b, m.col0, m.row0) && m.replaced == Get(b, m.col1, m.row1)
  }

  /** The move from (c0, r0) to (c1, r1) on `b`, or None when either square is
      off the board. */
  function CreateMove(b: Board, c0: int, r0: int, c1: int, r1: int): (r: Option<Move>)
    ensures r.Some? <==> InBounds(c0, r0) && InBounds(c1, r1)
    ensures r.Some? ==> r.value.Origin() == Sq(c0, r0) && r.value.col1 == c1 && r.value.row1 == r1
    ensures r.Some? ==> ReadsBoard(b, r.value)
  {
    if InBounds(c0, r0) && InBounds(c1, r1) then
      Some(Move(c0, r0, c1, r1, Get(b, c0, r0), Get(b, c1, r1)))
    else None
  }

  /** The move of `len` squares from (c, r) in direction `dir`. */
  function CreateAlong(b: Board, c: int, r: int, len: int, dir: Direction): Option<Move>
  {
    CreateMove(b, c, r, c + Scale(len, DC(dir)), r + Scale(len, DR(dir)))
  }

  /** 1, 0 or -1 as `end` lies above, at or below `start`. */
  function Delta(start: int, end: int): (d: int)
    ensures d == 1 <==> end > start
    ensures d == 0 <==> end == start
    ensures d == -1 <==> end < start
  {
    if end > start then 1
    else if end == start then 0
    else -1
  }

  /** Origin and destination share a row, a column or a diagonal. */
  predicate Aligned(m: Move)
  {
    m.col0 == m.col1 || m.row0 == m.row1 || Abs(m.col1 - m.col0) == Abs(m.row1 - m.row0)
  }

  /** Scan the directions after `d` for the step (dc, dr); stop at the last
      direction when none matches. */
  function ScanDirection(d: Direction, dc: int, dr: int): (r: Direction)
    ensures r == NW || (DC(r) == dc && DR(r) == dr)
    ensures d != NW ==> Ord(r) > Ord(d)
    decreases 8 - Ord(d)
  {
    match Succ(d)
    case None => d
    case Some(n) => if DC(n) == dc && DR(n) == dr then n else ScanDirection(n, dc, dr)
  }

  /** The scan finds the step of any direction after the one it starts from. */
  lemma {:induction false} ScanDirectionFinds(d: Direction, dc: int, dr: int, e: Direction)
    requires Ord(d) < Ord(e) && DC(e) == dc && DR(e) == dr
    ensures DC(ScanDirection(d, dc, dr)) == dc && DR(ScanDirection(d, dc, dr)) == dr
    decreases 8 - Ord(d)
  {
    var n := Succ(d).value;
    if !(DC(n) == dc && DR(n) == dr) {
      OrdInjective(n, e);
      ScanDirectionFinds(n, dc, dr, e);
    }
  }

  /** Every unit step is the step of some compass direction, which the scan
      from NOWHERE finds. */
  lemma UnitStepFound(dc: int, dr: int)
    requires IsUnit(dc, dr)
    ensures DC(ScanDirection(NOWHERE, dc, dr)) == dc && DR(ScanDirection(NOWHERE, dc, dr)) == dr
  {
    var e :=
      if dc == 0 && dr == 1 then N
      else if dc == 1 && dr == 1 then NE
      else if dc == 1 && dr == 0 then E
      else if dc == 1 && dr == -1 then SE
      else if dc == 0 && dr == -1 then S
      else if dc == -1 && dr == -1 then SW
      else if dc == -1 && dr == 0 then W
      else NW;
    ScanDirectionFinds(NOWHERE, dc, dr, e);
  }

  /** The compass direction whose step is (dc, dr), or NW when there is none. */
  function FindDirection(dc: int, dr: int): (r: Direction)
    ensures r != NOWHERE
    ensures IsUnit(dc, dr) ==> DC(r) == dc && DR(r) == dr
    ensures !IsUnit(dc, dr) ==> r == NW
  {
    DirectionSteps(ScanDirection(NOWHERE, dc, dr));
    if IsUnit(dc, dr) then UnitStepFound(dc, dr); ScanDirection(NOWHERE, dc, dr)
    else ScanDirection(NOWHERE, dc, dr)
  }

  /** The direction from a move's origin towards its destination; a move that
      stays put gets the last direction. */
  function MoveDirection(m: Move): Direction
  {
    FindDirection(Delta(m.col0, m.col1), Delta(m.row0, m.row1))
  }

  /** Occupied squares met walking from (c, r) in steps of (dc, dr) until the
      edge, (c, r) included. */
  function Walk(b: Board, c: int, r: int, dc: int, dr: int): nat
    requires IsUnit(dc, dr)
    decreases if dc == 1 then 9 - c else if dc == -1 then c else if dr == 1 then 9 - r else r
  {
    if !InBounds(c, r) then 0
    else (if Get(b, c, r) != EMP then 1 else 0) + Walk(b, c + dc, r + dr, dc, dr)
  }

  /** Number of pieces on the line through (c, r) in direction `dir`,
      counted forwards and backwards from (c, r), with (c, r) counted once. */
  function PieceCountAlong(b: Board, c: Coord, r: Coord, dir: Direction): nat
    requires dir != NOWHERE
  {
    DirectionSteps(dir);
    var n := Walk(b, c, r, DC(dir), DR(dir)) + Walk(b, c, r, -DC(dir), -DR(dir));
    if Get(b, c, r) != EMP then n - 1 else n
  }

  /** Number of pieces on the line of action of `m`. */
  function PieceCountAlongMove(b: Board, m: Move): nat
  {
    PieceCountAlong(b, m.col0, m.row0, MoveDirection(m))
  }

  /** An aligned move's destination is `Length` steps of its direction away
      from its origin. */
  lemma AlignedSteps(m: Move)
    requires Aligned(m)
    ensures var dc, dr := Delta(m.col0, m.col1), Delta(m.row0, m.row1);
      && m.col1 == m.col0 + Scale(m.Length(), dc)
      && m.row1 == m.row0 + Scale(m.Length(), dr)
      && (m.Length() == 0 <==> m.Origin() == Sq(m.col1, m.row1))
      && (m.Length() > 0 <==> IsUnit(dc, dr))
  {
  }

  /** (c1, r1) lies on the ray from (c, r) in steps of (dc, dr). */
  predicate Ahead(c: int, r: int, dc: int, dr: int, c1: int, r1: int)
  {
    && -1 <= dc <= 1 && -1 <= dr <= 1
    && (dc == 0 ==> c1 == c) && (dc == 1 ==> c1 >= c) && (dc == -1 ==> c1 <= c)
    && (dr == 0 ==> r1 == r) && (dr == 1 ==> r1 >= r) && (dr == -1 ==> r1 <= r)
    && (dc != 0 && dr != 0 ==> Abs(c1 - c) == Abs(r1 - r))
  }

  /** True when an opposing piece `opp` stands on (c, r) or on one of the
      following squares in steps of (dc, dr) before (c1, r1). */
  function BlockedBetween(b: Board, c: int, r: int, dc: int, dr: int,
                          c1: Coord, r1: Coord, opp: Piece): bool
    requires InBounds(c, r) && Ahead(c, r, dc, dr, c1, r1)
    decreases Max(Abs(c1 - c), Abs(r1 - r))
  {
    if c == c1 && r == r1 then false
    else Get(b, c, r) == opp || BlockedBetween(b, c + dc, r + dr, dc, dr, c1, r1, opp)
  }

  /** True when an opposing piece stands strictly between the origin and the
      destination of `m`, or the destination held a piece of the mover's side. */
  predicate Blocked(b: Board, m: Move)
    requires Aligned(m)
  {
    var dc, dr := Delta(m.col0, m.col1), Delta(m.row0, m.row1);
    BlockedBetween(b, m.col0 + dc, m.row0 + dr, dc, dr, m.col1, m.row1, Opposite(m.moved))
    || m.replaced == m.moved
  }

  /** The legality test of the board for the side to move. */
  predicate IsLegal(b: Board, m: Move)
  {
    && m.moved == b.turn
    && Aligned(m)
    && m.Length() == PieceCountAlongMove(b, m)
    && !Blocked(b, m)
  }

  // ---------------------------------------------------------------------
  // Making and retracting moves

  /** Play the legal move `m`: the mover lands on the destination, the origin
      empties, the turn passes and `m` is pushed on the history. */
  function MakeMove(b: Board, m: Move): (b': Board)
    requires IsLegal(b, m)
    ensures Get(b', m.col0, m.row0) == EMP
    ensures Sq(m.col1, m.row1) != m.Origin() ==> Get(b', m.col1, m.row1) == m.moved
    ensures SameSquaresExcept(b', b, {m.Origin(), Sq(m.col1, m.row1)})
    ensures b'.turn == Opposite(b.turn)
    ensures b'.moves == b.moves + [m] && MovesMade(b') == MovesMade(b) + 1
    ensures b'.winner == b.winner
  {
    var b1 := b.(moves := b.moves + [m]);
    var b2 := if m.replaced != EMP then Set(b1, m.col1, m.row1, EMP, None) else b1;
    var b3 := Set(b2, m.col1, m.row1, m.moved, None);
    var b4 := Set(b3, m.col0, m.row0, EMP, None);
    b4.(turn := Opposite(b4.turn))
  }

  /** Undo the last move: its destination gets back the piece it held, its
      origin gets back the mover, the turn passes back and the move is popped. */
  function Retract(b: Board): (b': Board)
    requires MovesMade(b) > 0
    ensures var m := b.moves[|b.moves| - 1];
      && Get(b', m.col0, m.row0) == m.moved
      && (Sq(m.col1, m.row1) != m.Origin() ==> Get(b', m.col1, m.row1) == m.replaced)
      && SameSquaresExcept(b', b, {m.Origin(), Sq(m.col1, m.row1)})
    ensures b'.turn == Opposite(b.turn)
    ensures b'.moves == b.moves[..|b.moves| - 1] && MovesMade(b') == MovesMade(b) - 1
    ensures b'.winner == b.winner
  {
    var m := b.moves[|b.moves| - 1];
    var b1 := b.(moves := b.moves[..|b.moves| - 1]);
    var b2 := Set(b1, m.col1, m.row1, m.replaced, None);
    var b3 := Set(b2, m.col0, m.row0, m.moved, None);
    b3.(turn := Opposite(b3.turn))
  }

  /** A legal move built on `b` never stays on its own square. */
  lemma LegalMoveLeavesOrigin(b: Board, m: Move)
    requires IsLegal(b, m) && ReadsBoard(b, m)
    ensures Sq(m.col1, m.row1) != m.Origin()
  {
  }

  /** Retracting the last move of `b1`, which `b1` got by making `m` on `b`,
      puts the square (c, r) back as it was on `b`. */
  lemma RetractRestoresSquare(b: Board, m: Move, b1: Board, b': Board, c: Coord, r: Coord)
    requires IsLegal(b, m) && ReadsBoard(b, m) && Sq(m.col1, m.row1) != m.Origin()
    requires b1 == MakeMove(b, m) && b1.moves[|b1.moves| - 1] == m && b' == Retract(b1)
    ensures Get(b', c, r) == Get(b, c, r)
  {
    if Sq(c, r) == m.Origin() {
    } else if Sq(c, r) == Sq(m.col1, m.row1) {
    } else {
      assert Sq(c, r) !in {m.Origin(), Sq(m.col1, m.row1)};
    }
  }

  /** Retracting right after making a legal move built on `b` puts every
      square back as it was. */
  lemma RetractRestoresSquares(b: Board, m: Move, b': Board)
    requires IsLegal(b, m) && ReadsBoard(b, m) && Sq(m.col1, m.row1) != m.Origin()
    requires b' == Retract(MakeMove(b, m))
    ensures forall c: Coord, r: Coord :: Get(b', c, r) == Get(b, c, r)
  {
    var b1 := MakeMove(b, m);
    assert b1.moves[|b1.moves| - 1] == m;
    forall c: Coord, r: Coord
      ensures Get(b', c, r) == Get(b, c, r)
    {
      RetractRestoresSquare(b, m, b1, b', c, r);
    }
  }

  /** Retracting right after making a legal move built on `b` gives back `b`
      exactly: every square, the turn, the history and the winner. */
  lemma RetractUndoesMakeMove(b: Board, m: Move)
    requires IsLegal(b, m) && ReadsBoard(b, m)
    ensures Retract(MakeMove(b, m)) == b
    ensures Equals(Retract(MakeMove(b, m)), b)
    ensures MovesMade(Retract(MakeMove(b, m))) == MovesMade(b)
  {
    LegalMoveLeavesOrigin(b, m);
    var b' := Retract(MakeMove(b, m));
    RetractRestoresSquares(b, m, b');
    OppositeInvolutive(b.turn);
    assert (b.moves + [m])[..|b.moves|] == b.moves;
    EqualsMeansSameGridAndTurn(b', b);
  }
}
