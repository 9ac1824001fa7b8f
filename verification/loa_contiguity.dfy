/** The end-of-game test. A side's pieces are contiguous when every two of
    them are joined by a chain of that side's pieces, each one of the eight
    neighbours of the next. The board decides this with a flood fill from
    the first piece of the side, and then checks that every piece of the
    side got marked. */
module LoaContiguity {

  import opened Results
  import opened LoaTypes
  import opened LoaBoard

  /** The square `s` is on the board and holds a piece of `side`. */
  predicate Holds(b: Board, side: Piece, s: Square)
  {
    OnBoard(s) && Get(b, s.col, s.row) == side
  }

  /** `t` is one of the eight neighbours of `s`. */
  predicate Adjacent(s: Square, t: Square)
  {
    IsUnit(t.col - s.col, t.row - s.row)
  }

  /** A chain of pieces of `side`, each a neighbour of the next. */
  predicate IsPath(b: Board, side: Piece, p: seq<Square>)
  {
    && |p| > 0
    && (forall i :: 0 <= i < |p| ==> Holds(b, side, p[i]))
    && (forall i :: 0 < i < |p| ==> Adjacent(p[i - 1], p[i]))
  }

  /** A chain of pieces of `side` leads from `s` to `t`. */
  ghost predicate Linked(b: Board, side: Piece, s: Square, t: Square)
  {
    exists p :: IsPath(b, side, p) && p[0] == s && p[|p| - 1] == t
  }

  /** Every two pieces of `side` are linked. */
  ghost predicate Contiguous(b: Board, side: Piece)
  {
    forall s, t :: Holds(b, side, s) && Holds(b, side, t) ==> Linked(b, side, s, t)
  }

  /** Every neighbour of `s` holding a piece of `side` is in `marked`. */
  predicate NeighboursMarked(b: Board, side: Piece, s: Square, marked: set<Square>)
  {
    forall e: Direction :: e != NOWHERE && Holds(b, side, Step(s, e)) ==> Step(s, e) in marked
  }

  /** Every marked square outside `pending` has its neighbours of `side`
      marked. */
  predicate ClosedExcept(b: Board, side: Piece, marked: set<Square>, pending: seq<Square>)
  {
    forall x {:trigger NeighboursMarked(b, side, x, marked)} ::
      x in marked && x !in pending ==> NeighboursMarked(b, side, x, marked)
  }

  /** The squares of the board. */
  ghost function AllSquares(): set<Square>
  {
    set c: int, r: int | 1 <= c <= M && 1 <= r <= M :: Sq(c, r)
  }

  // ---------------------------------------------------------------------
  // Facts about chains

  lemma StepIsAdjacent(s: Square, e: Direction)
    requires e != NOWHERE
    ensures Adjacent(s, Step(s, e))
  {
    DirectionSteps(e);
  }

  /** Every neighbour is one step away in some direction. */
  lemma AdjacentIsStep(s: Square, t: Square)
    requires Adjacent(s, t)
    ensures var e := FindDirection(t.col - s.col, t.row - s.row);
      e != NOWHERE && Step(s, e) == t
  {
  }

  lemma LinkedRefl(b: Board, side: Piece, s: Square)
    requires Holds(b, side, s)
    ensures Linked(b, side, s, s)
  {
    assert IsPath(b, side, [s]);
  }

  /** A chain from `s` to `x` continues to a neighbour `y` of the same side. */
  lemma LinkedExtend(b: Board, side: Piece, s: Square, x: Square, y: Square)
    requires Linked(b, side, s, x) && Adjacent(x, y) && Holds(b, side, y)
    ensures Linked(b, side, s, y)
  {
    var p :| IsPath(b, side, p) && p[0] == s && p[|p| - 1] == x;
    var q := p + [y];
    assert IsPath(b, side, q);
  }

  lemma LinkedSymmetric(b: Board, side: Piece, s: Square, t: Square)
    requires Linked(b, side, s, t)
    ensures Linked(b, side, t, s)
  {
    var p :| IsPath(b, side, p) && p[0] == s && p[|p| - 1] == t;
    var q := seq(|p|, i requires 0 <= i < |p| => p[|p| - 1 - i]);
    forall i | 0 < i < |q|
      ensures Adjacent(q[i - 1], q[i])
    {
      assert Adjacent(p[|p| - 1 - i], p[|p| - i]);
    }
    assert IsPath(b, side, q);
  }

  lemma LinkedTransitive(b: Board, side: Piece, s: Square, t: Square, u: Square)
    requires Linked(b, side, s, t) && Linked(b, side, t, u)
    ensures Linked(b, side, s, u)
  {
    var p :| IsPath(b, side, p) && p[0] == s && p[|p| - 1] == t;
    var q :| IsPath(b, side, q) && q[0] == t && q[|q| - 1] == u;
    var pq := p + q[1..];
    forall i | 0 < i < |pq|
      ensures Adjacent(pq[i - 1], pq[i])
    {
      if i >= |p| {
        assert pq[i - 1] == q[i - |p|] && pq[i] == q[i - |p| + 1];
      }
    }
    assert IsPath(b, side, pq);
  }

  /** A set holding `p[0]` that contains every marked square's neighbours of
      the same side contains the whole chain `p`. */
  lemma {:induction false} ClosedHoldsPath(b: Board, side: Piece, marked: set<Square>, p: seq<Square>)
    requires IsPath(b, side, p) && p[0] in marked
    requires ClosedExcept(b, side, marked, [])
    ensures p[|p| - 1] in marked
    decreases |p|
  {
    if |p| > 1 {
      var p' := p[..|p| - 1];
      assert IsPath(b, side, p');
      ClosedHoldsPath(b, side, marked, p');
      var x, y := p[|p| - 2], p[|p| - 1];
      assert Adjacent(x, y);
      AdjacentIsStep(x, y);
      assert NeighboursMarked(b, side, x, marked);
    }
  }

  // ---------------------------------------------------------------------
  // The flood fill

  /** The first square of `side` from (c, r) on, scanning each column
      bottom to top and the columns left to right. */
  function FirstOfSide(b: Board, side: Piece, c: Coord, r: Coord): (res: Option<Square>)
    ensures res.Some? ==> Holds(b, side, res.value)
    ensures res.None? ==> forall s :: Holds(b, side, s) ==> s.col < c || (s.col == c && s.row < r)
    ensures res.Some? ==> forall s :: Holds(b, side, s) && (s.col > c || (s.col == c && s.row >= r)) ==>
                            s.col > res.value.col || (s.col == res.value.col && s.row >= res.value.row)
    decreases M - c, M - r
  {
    if Get(b, c, r) == side then Some(Sq(c, r))
    else if r < M then FirstOfSide(b, side, c, r + 1)
    else if c < M then FirstOfSide(b, side, c + 1, 1)
    else None
  }

  /** The direction loop of the board's neighbour check for the square `s`:
      in the directions after `d`, mark each neighbour of `side` not yet
      marked and collect it, in the order found. */
  function CheckNeighbours(b: Board, side: Piece, s: Square, d: Direction, marked: set<Square>)
    : (res: (seq<Square>, set<Square>))
    ensures forall x :: x in res.1 <==> x in marked || x in res.0
    ensures forall i :: 0 <= i < |res.0| ==>
              Holds(b, side, res.0[i]) && res.0[i] !in marked && Adjacent(s, res.0[i])
    ensures forall e: Direction :: Ord(d) < Ord(e) && Holds(b, side, Step(s, e)) ==> Step(s, e) in res.1
    decreases 8 - Ord(d)
  {
    match Succ(d)
    case None => ([], marked)
    case Some(e) =>
      var t := Step(s, e);
      var ok := Holds(b, side, t) && t !in marked;
      var rest := CheckNeighbours(b, side, s, e, if ok then marked + {t} else marked);
      assert forall e': Direction :: Ord(e') == Ord(e) ==> e' == e by {
        forall e': Direction ensures Ord(e') == Ord(e) ==> e' == e { OrdInjective(e', e); }
      }
      if ok then
        StepIsAdjacent(s, e);
        ([t] + rest.0, rest.1)
      else rest
  }

  /** `x` is adjacent to some square of `locs`. */
  predicate AdjacentToSome(locs: seq<Square>, x: Square)
  {
    exists j :: 0 <= j < |locs| && Adjacent(locs[j], x)
  }

  lemma AdjacentToTail(locs: seq<Square>, x: Square)
    requires |locs| > 0 && AdjacentToSome(locs[1..], x)
    ensures AdjacentToSome(locs, x)
  {
    var j :| 0 <= j < |locs[1..]| && Adjacent(locs[1..][j], x);
    assert locs[j + 1] == locs[1..][j];
    assert Adjacent(locs[j + 1], x);
  }

  /** The squares found from the head of `locs`, followed by those found
      from its tail, are each adjacent to some square of `locs`. */
  lemma AdjacentOfRound(locs: seq<Square>, xs: seq<Square>, ys: seq<Square>)
    requires |locs| > 0
    requires forall i :: 0 <= i < |xs| ==> Adjacent(locs[0], xs[i])
    requires forall i :: 0 <= i < |ys| ==> AdjacentToSome(locs[1..], ys[i])
    ensures forall i :: 0 <= i < |xs + ys| ==> AdjacentToSome(locs, (xs + ys)[i])
  {
    forall i | 0 <= i < |xs + ys|
      ensures AdjacentToSome(locs, (xs + ys)[i])
    {
      if i < |xs| {
        assert Adjacent(locs[0], (xs + ys)[i]);
      } else {
        assert (xs + ys)[i] == ys[i - |xs|];
        AdjacentToTail(locs, ys[i - |xs|]);
      }
    }
  }

  /** Neighbours marked for the head and for every square of the tail of
      `locs` are neighbours marked for every square of `locs`. */
  lemma NeighboursMarkedOfTail(b: Board, side: Piece, locs: seq<Square>, marked: set<Square>)
    requires |locs| > 0 && NeighboursMarked(b, side, locs[0], marked)
    requires forall j :: 0 <= j < |locs[1..]| ==> NeighboursMarked(b, side, locs[1..][j], marked)
    ensures forall j :: 0 <= j < |locs| ==> NeighboursMarked(b, side, locs[j], marked)
  {
    forall j | 0 < j < |locs|
      ensures NeighboursMarked(b, side, locs[j], marked)
    {
      assert locs[j] == locs[1..][j - 1];
    }
  }

  /** One round of the board's flood fill: check the neighbours of every
      square of `locs` in order; the squares newly marked form the next
      round's list. */
  function CheckPce(b: Board, side: Piece, locs: seq<Square>, marked: set<Square>)
    : (res: (seq<Square>, set<Square>))
    ensures forall x :: x in res.1 <==> x in marked || x in res.0
    ensures forall i :: 0 <= i < |res.0| ==> Holds(b, side, res.0[i]) && res.0[i] !in marked
    decreases |locs|
  {
    if |locs| == 0 then ([], marked)
    else
      var first := CheckNeighbours(b, side, locs[0], NOWHERE, marked);
      var rest := CheckPce(b, side, locs[1..], first.1);
      (first.0 + rest.0, rest.1)
  }

  /** Every square a round marks is adjacent to a square of the round's
      list. */
  lemma {:induction false} CheckPceAdjacent(b: Board, side: Piece, locs: seq<Square>, marked: set<Square>)
    ensures forall i :: 0 <= i < |CheckPce(b, side, locs, marked).0| ==>
              AdjacentToSome(locs, CheckPce(b, side, locs, marked).0[i])
    decreases |locs|
  {
    if |locs| > 0 {
      var first := CheckNeighbours(b, side, locs[0], NOWHERE, marked);
      var rest := CheckPce(b, side, locs[1..], first.1);
      CheckPceAdjacent(b, side, locs[1..], first.1);
      AdjacentOfRound(locs, first.0, rest.0);
    }
  }

  /** After a round, the neighbours of `side` of every square of the
      round's list are marked. */
  lemma {:induction false} CheckPceMarksNeighbours(b: Board, side: Piece, locs: seq<Square>, marked: set<Square>)
    ensures forall j :: 0 <= j < |locs| ==> NeighboursMarked(b, side, locs[j], CheckPce(b, side, locs, marked).1)
    decreases |locs|
  {
    if |locs| > 0 {
      var first := CheckNeighbours(b, side, locs[0], NOWHERE, marked);
      var rest := CheckPce(b, side, locs[1..], first.1);
      CheckPceMarksNeighbours(b, side, locs[1..], first.1);
      assert first.1 <= rest.1;
      assert NeighboursMarked(b, side, locs[0], rest.1);
      NeighboursMarkedOfTail(b, side, locs, rest.1);
    }
  }

  /** Repeat rounds of the flood fill until a round marks nothing new. */
  function Spread(b: Board, side: Piece, frontier: seq<Square>, marked: set<Square>): (res: set<Square>)
    ensures marked <= res
    ensures forall x :: x in res ==> x in marked || Holds(b, side, x)
    decreases AllSquares() - marked, |frontier|
  {
    if |frontier| == 0 then marked
    else
      var next := CheckPce(b, side, frontier, marked);
      if |next.0| == 0 then
        assert next.1 == marked;
        Spread(b, side, next.0, next.1)
      else
        var x := next.0[0];
        assert x in AllSquares() by {
          assert x == Sq(x.col, x.row);
        }
        assert x in AllSquares() - marked && x !in AllSquares() - next.1;
        Spread(b, side, next.0, next.1)
  }

  /** Every piece of `side` on the board is in `marked`. */
  predicate AllMarked(b: Board, side: Piece, marked: set<Square>)
  {
    forall c: int, r: int | 1 <= c <= M && 1 <= r <= M :: Get(b, c, r) == side ==> Sq(c, r) in marked
  }

  /** The board's contiguity test: flood fill from the first piece of `side`
      and check that every piece of `side` was reached. */
  function PiecesContiguous(b: Board, side: Piece): bool
  {
    var seed := FirstOfSide(b, side, 1, 1);
    var marked := if seed.None? then {} else Spread(b, side, [seed.value], {seed.value});
    AllMarked(b, side, marked)
  }

  // ---------------------------------------------------------------------
  // The flood fill computes the component of its seed

  /** A round that marks something leaves fewer unmarked squares; one that
      marks nothing leaves `marked` as it was. */
  lemma RoundProgress(b: Board, side: Piece, frontier: seq<Square>, marked: set<Square>)
    ensures |CheckPce(b, side, frontier, marked).0| > 0 ==>
      AllSquares() - CheckPce(b, side, frontier, marked).1 < AllSquares() - marked
    ensures |CheckPce(b, side, frontier, marked).0| == 0 ==> CheckPce(b, side, frontier, marked).1 == marked
  {
    var next := CheckPce(b, side, frontier, marked);
    if |next.0| > 0 {
      var x := next.0[0];
      assert x in AllSquares() by {
        assert x == Sq(x.col, x.row);
      }
    }
  }

  /** A round of the flood fill marks only squares linked to the seed when
      everything marked before was. */
  lemma RoundLinked(b: Board, side: Piece, seed: Square, frontier: seq<Square>, marked: set<Square>,
                    next: (seq<Square>, set<Square>))
    requires forall x :: x in marked ==> Linked(b, side, seed, x)
    requires forall j :: 0 <= j < |frontier| ==> frontier[j] in marked
    requires next == CheckPce(b, side, frontier, marked)
    ensures forall x :: x in next.1 ==> Linked(b, side, seed, x)
    ensures forall j :: 0 <= j < |next.0| ==> next.0[j] in next.1
  {
    CheckPceAdjacent(b, side, frontier, marked);
    forall x | x in next.1
      ensures Linked(b, side, seed, x)
    {
      if x !in marked {
        var i :| 0 <= i < |next.0| && next.0[i] == x;
        assert AdjacentToSome(frontier, next.0[i]);
        var j :| 0 <= j < |frontier| && Adjacent(frontier[j], x);
        LinkedExtend(b, side, seed, frontier[j], x);
      }
    }
  }

  /** Everything the flood fill marks is linked to the seed. */
  lemma {:induction false} SpreadSound(b: Board, side: Piece, seed: Square,
                                       frontier: seq<Square>, marked: set<Square>)
    requires forall x :: x in marked ==> Linked(b, side, seed, x)
    requires forall j :: 0 <= j < |frontier| ==> frontier[j] in marked
    ensures forall x :: x in Spread(b, side, frontier, marked) ==> Linked(b, side, seed, x)
    decreases AllSquares() - marked, |frontier|
  {
    if |frontier| > 0 {
      var next := CheckPce(b, side, frontier, marked);
      RoundLinked(b, side, seed, frontier, marked, next);
      RoundProgress(b, side, frontier, marked);
      assert Spread(b, side, frontier, marked) == Spread(b, side, next.0, next.1);
      SpreadSound(b, side, seed, next.0, next.1);
    }
  }

  lemma NeighboursMarkedGrows(b: Board, side: Piece, s: Square, m: set<Square>, m': set<Square>)
    requires NeighboursMarked(b, side, s, m) && m <= m'
    ensures NeighboursMarked(b, side, s, m')
  {
  }

  /** When the flood fill stops, the neighbours of the same side of every
      marked square are marked. */
  lemma {:induction false} SpreadClosed(b: Board, side: Piece, frontier: seq<Square>, marked: set<Square>)
    requires ClosedExcept(b, side, marked, frontier)
    ensures ClosedExcept(b, side, Spread(b, side, frontier, marked), [])
    decreases AllSquares() - marked, |frontier|
  {
    if |frontier| > 0 {
      var next := CheckPce(b, side, frontier, marked);
      CheckPceMarksNeighbours(b, side, frontier, marked);
      forall x | x in next.1 && x !in next.0
        ensures NeighboursMarked(b, side, x, next.1)
      {
        if x in frontier {
          var j :| 0 <= j < |frontier| && frontier[j] == x;
        } else {
          NeighboursMarkedGrows(b, side, x, marked, next.1);
        }
      }
      RoundProgress(b, side, frontier, marked);
      assert Spread(b, side, frontier, marked) == Spread(b, side, next.0, next.1);
      SpreadClosed(b, side, next.0, next.1);
    }
  }

  /** The flood fill from a piece of `side` marks exactly the pieces linked
      to it. */
  lemma SpreadIsComponent(b: Board, side: Piece, seed: Square)
    requires Holds(b, side, seed)
    ensures forall x :: x in Spread(b, side, [seed], {seed}) <==> Linked(b, side, seed, x)
  {
    var res := Spread(b, side, [seed], {seed});
    LinkedRefl(b, side, seed);
    SpreadSound(b, side, seed, [seed], {seed});
    SpreadClosed(b, side, [seed], {seed});
    forall x | Linked(b, side, seed, x)
      ensures x in res
    {
      var p :| IsPath(b, side, p) && p[0] == seed && p[|p| - 1] == x;
      ClosedHoldsPath(b, side, res, p);
    }
  }

  /** When every piece of `side` is linked to one piece, every two are. */
  lemma LinkedToOneMeansContiguous(b: Board, side: Piece, s0: Square)
    requires forall s :: Holds(b, side, s) ==> Linked(b, side, s0, s)
    ensures Contiguous(b, side)
  {
    forall s, t | Holds(b, side, s) && Holds(b, side, t)
      ensures Linked(b, side, s, t)
    {
      LinkedSymmetric(b, side, s0, s);
      LinkedTransitive(b, side, s, s0, t);
    }
  }

  /** With a seed, the test holds exactly when every piece of `side` is in
      the seed's flood fill. */
  lemma ContiguousFromSeed(b: Board, side: Piece, s0: Square)
    requires Holds(b, side, s0)
    ensures AllMarked(b, side, Spread(b, side, [s0], {s0})) <==> Contiguous(b, side)
  {
    var marked := Spread(b, side, [s0], {s0});
    SpreadIsComponent(b, side, s0);
    if AllMarked(b, side, marked) {
      forall s | Holds(b, side, s)
        ensures Linked(b, side, s0, s)
      {
        assert s == Sq(s.col, s.row);
        assert s in marked;
      }
      LinkedToOneMeansContiguous(b, side, s0);
    }
    if Contiguous(b, side) {
      forall c: int, r: int | 1 <= c <= M && 1 <= r <= M && Get(b, c, r) == side
        ensures Sq(c, r) in marked
      {
        assert Holds(b, side, Sq(c, r));
      }
    }
  }

  /** A side with no pieces passes the test, and its pieces are trivially
      contiguous. */
  lemma NoPiecesContiguous(b: Board, side: Piece)
    requires FirstOfSide(b, side, 1, 1).None?
    ensures PiecesContiguous(b, side) && Contiguous(b, side)
  {
    assert forall s :: !Holds(b, side, s);
    forall c: int, r: int | 1 <= c <= M && 1 <= r <= M
      ensures Get(b, c, r) != side
    {
      assert !Holds(b, side, Sq(c, r));
    }
    assert AllMarked(b, side, {});
  }

  /** The board's contiguity test holds exactly when every two pieces of
      `side` are joined by a chain of pieces of `side`. */
  lemma PiecesContiguousMeaning(b: Board, side: Piece)
    ensures PiecesContiguous(b, side) <==> Contiguous(b, side)
  {
    var seed := FirstOfSide(b, side, 1, 1);
    if seed.Some? {
      assert PiecesContiguous(b, side) == AllMarked(b, side, Spread(b, side, [seed.value], {seed.value}));
      ContiguousFromSeed(b, side, seed.value);
    } else {
      NoPiecesContiguous(b, side);
    }
  }

  // ---------------------------------------------------------------------
  // End of game

  /** The board's end-of-game test: the side that just moved wins if its
      pieces are contiguous, otherwise the side to move does if its pieces
      are; the winner is recorded on the board. */
  function GameOver(b: Board): (res: (bool, Board))
    ensures res.0 <==> Contiguous(b, Opposite(b.turn)) || Contiguous(b, b.turn)
    ensures res.0 && Contiguous(b, Opposite(b.turn)) ==> res.1.winner == Opposite(b.turn)
    ensures res.0 && !Contiguous(b, Opposite(b.turn)) ==> res.1.winner == b.turn
    ensures !res.0 ==> res.1 == b
    ensures res.1 == b.(winner := res.1.winner)
  {
    PiecesContiguousMeaning(b, Opposite(b.turn));
    PiecesContiguousMeaning(b, b.turn);
    if PiecesContiguous(b, Opposite(b.turn)) then (true, b.(winner := Opposite(b.turn)))
    else if PiecesContiguous(b, b.turn) then (true, b.(winner := b.turn))
    else (false, b)
  }
}
