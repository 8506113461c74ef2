/** The 10 x 20 grid of locked squares, stored flat and row-major with row 0
    at the bottom: square (x, y) lives at index y * 10 + x. */
module Grid {
  import opened Shapes

  const Width: int := 10
  const Height: int := 20
  const Cells: int := 200
  /** The top row, where pieces enter. */
  const Top: int := 19

  /** Flat index of square (x, y). */
  function Index(x: int, y: int): int
  {
    y * 10 + x
  }

  /** The square at column x of row y. */
  function At(g: seq<Kind>, x: int, y: int): Kind
    requires 0 <= Index(x, y) < |g|
  {
    g[Index(x, y)]
  }

  predicate InBounds(x: int, y: int)
  {
    0 <= x < Width && 0 <= y < Height
  }

  /** Column of the i-th square of `p` with its pivot in column `px`. */
  function SquareX(p: Piece, px: int, i: int): int
    requires 0 <= i < 4
  {
    px + p.offsets[i].x
  }

  /** Row of the i-th square of `p` with its pivot in row `py`: offsets
      grow downwards, rows grow upwards. */
  function SquareY(p: Piece, py: int, i: int): int
    requires 0 <= i < 4
  {
    py - p.offsets[i].y
  }

  /** Flat index of the i-th square of `p` placed at (px, py). */
  function SquareIndex(p: Piece, px: int, py: int, i: int): int
    requires 0 <= i < 4
  {
    Index(SquareX(p, px, i), SquareY(p, py, i))
  }

  /** All four squares of `p` at (px, py) lie on the grid. */
  predicate InGrid(p: Piece, px: int, py: int)
  {
    forall i :: 0 <= i < 4 ==> InBounds(SquareX(p, px, i), SquareY(p, py, i))
  }

  /** All four flat indices are inside the array (weaker than InGrid: a
      square left of column 0 wraps into the row below). */
  predicate InRange(p: Piece, px: int, py: int)
  {
    forall i :: 0 <= i < 4 ==> 0 <= SquareIndex(p, px, py, i) < Cells
  }

  /** The collision test: `p` at (px, py) is on the grid and covers only
      empty squares. */
  predicate Fits(cells: seq<Kind>, p: Piece, px: int, py: int)
    requires |cells| == Cells
  {
    forall i :: 0 <= i < 4 ==>
      InBounds(SquareX(p, px, i), SquareY(p, py, i)) && cells[SquareIndex(p, px, py, i)] == NoShape
  }

  /** The grid after writing p.kind into the squares of the first n
      offsets of `p`, one after the other. */
  function Stamp(cells: seq<Kind>, p: Piece, px: int, py: int, n: nat): seq<Kind>
    requires |cells| == Cells && n <= 4 && InRange(p, px, py)
    ensures |Stamp(cells, p, px, py, n)| == Cells
  {
    if n == 0 then cells
    else Stamp(cells, p, px, py, n - 1)[SquareIndex(p, px, py, n - 1) := p.kind]
  }

  /** The grid once the piece is locked into it. */
  function Lock(cells: seq<Kind>, p: Piece, px: int, py: int): seq<Kind>
    requires |cells| == Cells && InRange(p, px, py)
  {
    Stamp(cells, p, px, py, 4)
  }

  /** Square c is one of the squares of `p` at (px, py). */
  predicate Covers(p: Piece, px: int, py: int, c: int)
  {
    exists i :: 0 <= i < 4 && SquareIndex(p, px, py, i) == c
  }

  /** The collision test, square by square: a placement fits exactly
      when it is on the grid and every square of the array it covers is
      empty. */
  lemma FitsFreeSquares(cells: seq<Kind>, p: Piece, px: int, py: int)
    requires |cells| == Cells
    ensures Fits(cells, p, px, py) <==>
      InGrid(p, px, py) && forall c :: 0 <= c < Cells && Covers(p, px, py, c) ==> cells[c] == NoShape
  {
    if Fits(cells, p, px, py) {
      forall c | 0 <= c < Cells && Covers(p, px, py, c)
        ensures cells[c] == NoShape
      {
        var i :| 0 <= i < 4 && SquareIndex(p, px, py, i) == c;
      }
    }
    if InGrid(p, px, py) && forall c :: 0 <= c < Cells && Covers(p, px, py, c) ==> cells[c] == NoShape {
      forall i | 0 <= i < 4
        ensures cells[SquareIndex(p, px, py, i)] == NoShape
      {
        assert Covers(p, px, py, SquareIndex(p, px, py, i));
      }
    }
  }

  /** Stamping n offsets writes the kind into exactly those n squares. */
  lemma {:induction false} StampAt(cells: seq<Kind>, p: Piece, px: int, py: int, n: nat)
    requires |cells| == Cells && n <= 4 && InRange(p, px, py)
    ensures forall c :: 0 <= c < Cells ==>
      Stamp(cells, p, px, py, n)[c] ==
        if exists i :: 0 <= i < n && SquareIndex(p, px, py, i) == c then p.kind else cells[c]
  {
    if n > 0 {
      StampAt(cells, p, px, py, n - 1);
    }
  }

  /** Locking writes the piece's kind into its four squares and leaves
      every other square as it was. */
  lemma LockAt(cells: seq<Kind>, p: Piece, px: int, py: int)
    requires |cells| == Cells && InRange(p, px, py)
    ensures |Lock(cells, p, px, py)| == Cells
    ensures forall c :: 0 <= c < Cells ==>
      Lock(cells, p, px, py)[c] == if Covers(p, px, py, c) then p.kind else cells[c]
  {
    StampAt(cells, p, px, py, 4);
  }

  /** The row on which a hard drop from row py stops: it descends while
      the row below is above row 0 and the piece fits there. */
  function LandingY(cells: seq<Kind>, p: Piece, px: int, py: int): int
    requires |cells| == Cells
    decreases py
  {
    if py > 0 && Fits(cells, p, px, py - 1) then LandingY(cells, p, px, py - 1) else py
  }

  /** A hard drop never rises, passes only through rows where the piece
      fits, and stops at row 0 or right above the first row where it would
      collide. */
  lemma {:induction false} LandingYIsLowestReachable(cells: seq<Kind>, p: Piece, px: int, py: int)
    requires |cells| == Cells
    ensures LandingY(cells, p, px, py) <= py
    ensures forall y :: LandingY(cells, p, px, py) <= y < py ==> Fits(cells, p, px, y)
    ensures LandingY(cells, p, px, py) > 0 ==> !Fits(cells, p, px, LandingY(cells, p, px, py) - 1)
    decreases py
  {
    if py > 0 && Fits(cells, p, px, py - 1) {
      LandingYIsLowestReachable(cells, p, px, py - 1);
    }
  }

  /** A piece that fits is on the grid. */
  lemma FitsInGrid(cells: seq<Kind>, p: Piece, px: int, py: int)
    requires |cells| == Cells && Fits(cells, p, px, py)
    ensures InGrid(p, px, py)
  {
  }

  /** A piece on the grid has all its flat indices inside the array. */
  lemma InGridInRange(p: Piece, px: int, py: int)
    requires InGrid(p, px, py)
    ensures InRange(p, px, py)
  {
  }

  /** The landing row keeps a piece that started on the grid on the grid. */
  lemma LandingInGrid(cells: seq<Kind>, p: Piece, px: int, py: int)
    requires |cells| == Cells && InGrid(p, px, py)
    ensures InGrid(p, px, LandingY(cells, p, px, py))
  {
    LandingYIsLowestReachable(cells, p, px, py);
    var ly := LandingY(cells, p, px, py);
    if ly < py {
      FitsInGrid(cells, p, px, ly);
    }
  }
}
