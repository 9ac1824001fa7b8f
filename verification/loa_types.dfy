/** The small value types the Lines of Action board is built from: pieces,
    the eight compass directions, squares and moves. */
module LoaTypes {

  import opened Results

  /** Board size. */
  const M: int := 8

  /** A column or row number of a square on the board. */
  type Coord = x: int | 1 <= x <= 8 witness 1

  /** The contents of a square: empty, a black piece or a white piece. */
  datatype Piece = EMP | BP | WP

  /** The piece of the other side; the empty piece has no opposite and maps
      to itself. */
  function Opposite(p: Piece): (q: Piece)
    ensures q == EMP <==> p == EMP
    ensures p != EMP ==> q != p
  {
    match p
    case BP => WP
    case WP => BP
    case EMP => EMP
  }

  lemma OppositeInvolutive(p: Piece)
    ensures Opposite(Opposite(p)) == p
  {
  }

  /** The compass directions, preceded by the sentinel NOWHERE from which a
      scan over all eight directions starts. */
  datatype Direction = NOWHERE | N | NE | E | SE | S | SW | W | NW

  /** Column change of one step in direction `d`. */
  function DC(d: Direction): int
  {
    match d
    case NOWHERE => 0
    case N => 0
    case NE => 1
    case E => 1
    case SE => 1
    case S => 0
    case SW => -1
    case W => -1
    case NW => -1
  }

  /** Row change of one step in direction `d`. */
  function DR(d: Direction): int
  {
    match d
    case NOWHERE => 0
    case N => 1
    case NE => 1
    case E => 0
    case SE => -1
    case S => -1
    case SW => -1
    case W => 0
    case NW => 1
  }

  /** Position of `d` in the scan order. */
  function Ord(d: Direction): (o: nat)
    ensures o <= 8
  {
    match d
    case NOWHERE => 0
    case N => 1
    case NE => 2
    case E => 3
    case SE => 4
    case S => 5
    case SW => 6
    case W => 7
    case NW => 8
  }

  /** Distinct directions have distinct positions in the scan order. */
  lemma OrdInjective(d: Direction, e: Direction)
    ensures Ord(d) == Ord(e) ==> d == e
  {
  }

  /** The direction following `d` in the scan order, or None after the last. */
  function Succ(d: Direction): (r: Option<Direction>)
    ensures r.None? <==> d == NW
    ensures r.Some? ==> Ord(r.value) == Ord(d) + 1
  {
    match d
    case NOWHERE => Some(N)
    case N => Some(NE)
    case NE => Some(E)
    case E => Some(SE)
    case SE => Some(S)
    case S => Some(SW)
    case SW => Some(W)
    case W => Some(NW)
    case NW => None
  }

  /** A proper direction is one of the eight unit steps. */
  predicate IsUnit(dc: int, dr: int)
  {
    -1 <= dc <= 1 && -1 <= dr <= 1 && (dc != 0 || dr != 0)
  }

  lemma DirectionSteps(d: Direction)
    ensures -1 <= DC(d) <= 1 && -1 <= DR(d) <= 1
    ensures d != NOWHERE <==> IsUnit(DC(d), DR(d))
  {
  }

  /** A square given by column and row; it may lie off the board. */
  datatype Square = Sq(col: int, row: int)

  predicate InBounds(c: int, r: int)
  {
    1 <= c <= M && 1 <= r <= M
  }

  predicate OnBoard(s: Square)
  {
    InBounds(s.col, s.row)
  }

  /** The square one step from `s` in direction `d`. */
  function Step(s: Square, d: Direction): Square
  {
    Sq(s.col + DC(d), s.row + DR(d))
  }

  function Abs(x: int): nat
  {
    if x < 0 then -x else x
  }

  /** The change of a coordinate after `k` steps of unit change `d`. */
  function Scale(k: int, d: int): int
  {
    if d > 0 then k else if d < 0 then -k else 0
  }

  function Max(a: int, b: int): int
  {
    if a < b then b else a
  }

  /** The distance in king steps from (c, r) to (c1, r1). */
  function Dist(c: int, r: int, c1: int, r1: int): nat
  {
    Max(Abs(c1 - c), Abs(r1 - r))
  }

  /** A move of the piece `moved` from (col0, row0) to (col1, row1), where the
      destination held `replaced` when the move was built. */
  datatype Move = Move(col0: Coord, row0: Coord, col1: Coord, row1: Coord,
                       moved: Piece, replaced: Piece)
  {
    /** Number of squares travelled. */
    function Length(): nat
    {
      Dist(col0, row0, col1, row1)
    }

    function Origin(): Square
    {
      Sq(col0, row0)
    }
  }
}
