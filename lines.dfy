/** Removal of full rows, as the board does it: rows are examined from the
    top (row 19) down to row 0; a full row i is removed by copying every row
    k + 1 onto row k for k = i .. 18.  Row 19 itself is only ever read, so
    it stays as it was and is duplicated into row 18 by every removal. */
module LineClear {
  import opened Shapes
  import opened Grid

  /** Every square of row r is occupied. */
  predicate RowFull(g: seq<Kind>, r: int)
    requires |g| == Cells && 0 <= r < Height
  {
    forall j :: 0 <= j < Width ==> At(g, j, r) != NoShape
  }

  /** The grid after rows i+1 .. 19 have each been copied one row down. */
  function ShiftDown(g: seq<Kind>, i: int): (r: seq<Kind>)
    requires |g| == Cells && 0 <= i < Height
    ensures |r| == Cells
  {
    seq(Cells, c requires 0 <= c < Cells =>
      if 10 * i <= c < 190 then g[c + 10] else g[c])
  }

  /** One step of the scan: a full row i is removed, any other row is kept. */
  function Process(g: seq<Kind>, i: int): (r: seq<Kind>)
    requires |g| == Cells && 0 <= i < Height
    ensures |r| == Cells
  {
    if RowFull(g, i) then ShiftDown(g, i) else g
  }

  /** The grid once the top n rows (19, 18, .., 20 - n) have been scanned. */
  function After(g: seq<Kind>, n: nat): (r: seq<Kind>)
    requires |g| == Cells && n <= Height
    ensures |r| == Cells
  {
    if n == 0 then g else Process(After(g, n - 1), Height - n)
  }

  /** The grid once every row has been scanned. */
  function Cleared(g: seq<Kind>): (r: seq<Kind>)
    requires |g| == Cells
    ensures |r| == Cells
  {
    After(g, Height)
  }

  /** The number of full rows among rows lo .. hi - 1. */
  function FullRowsIn(g: seq<Kind>, lo: int, hi: int): (n: nat)
    requires |g| == Cells && 0 <= lo && hi <= Height
    ensures n <= if lo <= hi then hi - lo else 0
    decreases hi - lo
  {
    if lo >= hi then 0 else (if RowFull(g, lo) then 1 else 0) + FullRowsIn(g, lo + 1, hi)
  }

  /** The number of full rows of the grid. */
  function FullRows(g: seq<Kind>): nat
    requires |g| == Cells
  {
    FullRowsIn(g, 0, Height)
  }

  /** The rows below the part already scanned are untouched, and row 19 is
      never written. */
  lemma {:induction false} AfterKeepsUnscanned(g: seq<Kind>, n: nat)
    requires |g| == Cells && n <= Height
    ensures forall c :: 0 <= c < Index(0, Height - n) ==> After(g, n)[c] == g[c]
    ensures forall c :: Index(0, Height - 1) <= c < Cells ==> After(g, n)[c] == g[c]
  {
    if n > 0 {
      AfterKeepsUnscanned(g, n - 1);
    }
  }

  /** Whether the scan finds row i full is decided by the original grid:
      nothing at or below a row is written before that row is examined. */
  lemma ScanSeesOriginalRow(g: seq<Kind>, n: nat)
    requires |g| == Cells && n < Height
    ensures RowFull(After(g, n), Height - 1 - n) == RowFull(g, Height - 1 - n)
  {
    AfterKeepsUnscanned(g, n);
    var r := Height - 1 - n;
    forall j | 0 <= j < Width
      ensures At(After(g, n), j, r) == At(g, j, r)
    {
      assert Index(j, r) < Index(0, Height - n);
    }
    if RowFull(After(g, n), r) {
      forall j | 0 <= j < Width
        ensures At(g, j, r) != NoShape
      {
        assert At(After(g, n), j, r) != NoShape;
      }
    }
  }

  /** One step of the scan, stated for the row it examines. */
  lemma AfterStep(g: seq<Kind>, n: nat, i: int)
    requires |g| == Cells && n < Height && i == Height - 1 - n
    ensures After(g, n + 1) == Process(After(g, n), i)
    ensures RowFull(After(g, n), i) == RowFull(g, i)
  {
    ScanSeesOriginalRow(g, n);
  }

  /** One step of the count, stated for the row it examines. */
  lemma FullRowsStep(g: seq<Kind>, i: int, above: int)
    requires |g| == Cells && 0 <= i < Height && above == i + 1
    ensures FullRowsIn(g, i, Height) == (if RowFull(g, i) then 1 else 0) + FullRowsIn(g, above, Height)
  {
  }

  /** Row 19 is never written by the clear. */
  lemma ClearedKeepsTopRow(g: seq<Kind>)
    requires |g| == Cells
    ensures forall j :: 0 <= j < Width ==> At(Cleared(g), j, Top) == At(g, j, Top)
  {
    AfterKeepsUnscanned(g, Height);
  }

  /** A full top row therefore survives the clear, although it is counted. */
  lemma TopRowFullSurvives(g: seq<Kind>)
    requires |g| == Cells && RowFull(g, Height - 1)
    ensures RowFull(Cleared(g), Height - 1) && FullRows(g) >= 1
  {
    ClearedKeepsTopRow(g);
    TopRowCounted(g, 0);
  }

  lemma {:induction false} TopRowCounted(g: seq<Kind>, lo: int)
    requires |g| == Cells && 0 <= lo < Height && RowFull(g, Height - 1)
    ensures FullRowsIn(g, lo, Height) >= 1
    decreases Height - lo
  {
    if lo < Height - 1 {
      TopRowCounted(g, lo + 1);
    }
  }

  /** Every row that was not full keeps its content and moves down by the
      number of full rows below it (counted within the scanned part). */
  lemma {:induction false} AfterMovesKeptRows(g: seq<Kind>, n: nat, r: int, j: int)
    requires |g| == Cells && n <= Height
    requires Height - n <= r < Height && !RowFull(g, r) && 0 <= j < Width
    ensures r - FullRowsIn(g, Height - n, r) >= Height - n
    ensures After(g, n)[Index(j, r - FullRowsIn(g, Height - n, r))] == g[Index(j, r)]
  {
    var s := Height - n;
    var prev := After(g, n - 1);
    ScanSeesOriginalRow(g, n - 1);
    if r == s {
      AfterKeepsUnscanned(g, n - 1);
      assert prev[Index(j, r)] == g[Index(j, r)];
      assert !RowFull(prev, s);
    } else {
      AfterMovesKeptRows(g, n - 1, r, j);
      var k := FullRowsIn(g, s + 1, r);
      assert FullRowsIn(g, s, r) == (if RowFull(g, s) then 1 else 0) + k;
      if RowFull(g, s) {
        var t := r - k - 1;
        assert s <= t < Height - 1;
        assert Index(j, t) + Width == Index(j, r - k);
      }
    }
  }

  /** Clearing keeps every non-full row, in order, shifted down by the
      number of full rows below it. */
  lemma ClearedMovesKeptRows(g: seq<Kind>, r: int, j: int)
    requires |g| == Cells && 0 <= r < Height && !RowFull(g, r) && 0 <= j < Width
    ensures 0 <= r - FullRowsIn(g, 0, r)
    ensures Cleared(g)[Index(j, r - FullRowsIn(g, 0, r))] == g[Index(j, r)]
  {
    AfterMovesKeptRows(g, Height, r, j);
  }

  lemma {:induction false} NoFullRowsCountZero(g: seq<Kind>, lo: int, hi: int)
    requires |g| == Cells && 0 <= lo && hi <= Height
    requires forall q :: lo <= q < hi ==> !RowFull(g, q)
    ensures FullRowsIn(g, lo, hi) == 0
    decreases hi - lo
  {
    if lo < hi {
      NoFullRowsCountZero(g, lo + 1, hi);
    }
  }

  /** Rows below the lowest full row are unchanged by the clear. */
  lemma ClearedKeepsRowsBelowLowestFull(g: seq<Kind>, r: int)
    requires |g| == Cells && 0 <= r < Height
    requires forall q :: 0 <= q <= r ==> !RowFull(g, q)
    ensures forall j :: 0 <= j < Width ==> At(Cleared(g), j, r) == At(g, j, r)
  {
    NoFullRowsCountZero(g, 0, r);
    forall j | 0 <= j < Width
      ensures At(Cleared(g), j, r) == At(g, j, r)
    {
      ClearedMovesKeptRows(g, r, j);
    }
  }

  /** Shifting moves row r + 1 onto row r for the rows it writes. */
  lemma ShiftDownRow(g: seq<Kind>, i: int, r: int)
    requires |g| == Cells && 0 <= i <= r < Height - 1
    ensures RowFull(ShiftDown(g, i), r) == RowFull(g, r + 1)
  {
    forall j | 0 <= j < Width
      ensures At(ShiftDown(g, i), j, r) == At(g, j, r + 1)
    {
      assert ShiftDown(g, i)[Index(j, r)] == g[Index(j, r) + Width];
    }
    var above := r + 1;
    if RowFull(ShiftDown(g, i), r) {
      forall j | 0 <= j < Width
        ensures At(g, j, above) != NoShape
      {
        assert At(ShiftDown(g, i), j, r) != NoShape;
      }
    }
  }

  /** While row 19 is not full, no scanned row is full. */
  lemma {:induction false} AfterLeavesNoFullRow(g: seq<Kind>, n: nat)
    requires |g| == Cells && n <= Height && !RowFull(g, Height - 1)
    ensures forall r :: Height - n <= r < Height ==> !RowFull(After(g, n), r)
  {
    if n > 0 {
      var s := Height - n;
      var prev := After(g, n - 1);
      AfterLeavesNoFullRow(g, n - 1);
      AfterKeepsUnscanned(g, n - 1);
      if RowFull(prev, s) {
        forall r | s <= r < Height
          ensures !RowFull(After(g, n), r)
        {
          if r < Height - 1 {
            ShiftDownRow(prev, s, r);
          } else {
            assert forall j :: 0 <= j < Width ==> At(After(g, n), j, r) == At(g, j, r);
          }
        }
      } else if n == 1 {
        assert prev == g;
      }
    }
  }

  /** If row 19 is not full, no full row remains after the clear. */
  lemma ClearedLeavesNoFullRow(g: seq<Kind>)
    requires |g| == Cells && !RowFull(g, Height - 1)
    ensures forall r :: 0 <= r < Height ==> !RowFull(Cleared(g), r)
  {
    AfterLeavesNoFullRow(g, Height);
  }

  /** A grid without full rows is left as it is. */
  lemma {:induction false} AfterWithoutFullRows(g: seq<Kind>, n: nat)
    requires |g| == Cells && n <= Height && FullRows(g) == 0
    ensures After(g, n) == g
  {
    if n > 0 {
      AfterWithoutFullRows(g, n - 1);
      NotFullWhenNoneCounted(g, 0, Height - n);
    }
  }

  lemma {:induction false} NotFullWhenNoneCounted(g: seq<Kind>, lo: int, r: int)
    requires |g| == Cells && 0 <= lo <= r < Height && FullRowsIn(g, lo, Height) == 0
    ensures !RowFull(g, r)
    decreases r - lo
  {
    if lo < r {
      NotFullWhenNoneCounted(g, lo + 1, r);
    }
  }

  /** Once n >= 1 rows are scanned, every removal below row 19 has copied
      row 19 one row further down: the rows from 19 - k up, k being the
      number of full rows scanned below row 19, all hold row 19. */
  lemma {:induction false} AfterFillsTop(g: seq<Kind>, n: nat)
    requires |g| == Cells && 1 <= n <= Height
    ensures forall r, j :: Top - FullRowsIn(g, Height - n, Top) <= r < Height && 0 <= j < Width ==>
      At(After(g, n), j, r) == At(g, j, Top)
  {
    if n == 1 {
      assert FullRowsIn(g, Height - n, Top) == 0;
      forall r, j | Top - FullRowsIn(g, Height - n, Top) <= r < Height && 0 <= j < Width
        ensures At(After(g, n), j, r) == At(g, j, Top)
      {
        assert r == Top;
        assert After(g, 1) == Process(g, Top);
        assert Index(j, Top) >= 190;
      }
    } else {
      var s := Height - n;
      var prev := After(g, n - 1);
      var k := FullRowsIn(g, s + 1, Top);
      AfterFillsTop(g, n - 1);
      AfterStep(g, n - 1, s);
      assert FullRowsIn(g, s, Top) == (if RowFull(g, s) then 1 else 0) + k;
      if RowFull(g, s) {
        forall r, j | Top - k - 1 <= r < Height && 0 <= j < Width
          ensures At(After(g, n), j, r) == At(g, j, Top)
        {
          assert After(g, n) == ShiftDown(prev, s);
          assert s <= r;
          if r < Top {
            assert After(g, n)[Index(j, r)] == prev[Index(j, r) + Width];
            assert Index(j, r) + Width == Index(j, r + 1);
            assert At(prev, j, r + 1) == At(g, j, Top);
          } else {
            assert After(g, n)[Index(j, r)] == prev[Index(j, r)];
            assert At(prev, j, r) == At(g, j, Top);
          }
        }
      }
    }
  }

  /** Row 19 adds to the count of full rows in the rows below it. */
  lemma {:induction false} FullRowsSplitTop(g: seq<Kind>, lo: int)
    requires |g| == Cells && 0 <= lo <= Top
    ensures FullRowsIn(g, lo, Height) == FullRowsIn(g, lo, Top) + (if RowFull(g, Top) then 1 else 0)
    decreases Top - lo
  {
    if lo < Top {
      FullRowsSplitTop(g, lo + 1);
    }
  }

  /** The top rows the clear vacates are filled with copies of row 19: at
      least as many as there were full rows, and one more when row 19 was
      not full itself.  With ClearedMovesKeptRows and ClearedKeepsTopRow
      this describes the whole cleared grid. */
  lemma ClearedFillsTop(g: seq<Kind>)
    requires |g| == Cells
    ensures forall r, j :: Height - FullRows(g) <= r < Height && 0 <= j < Width ==>
      At(Cleared(g), j, r) == At(g, j, Top)
    ensures !RowFull(g, Top) ==>
      forall r, j :: 0 <= r && Top - FullRows(g) <= r < Height && 0 <= j < Width ==> At(Cleared(g), j, r) == At(g, j, Top)
  {
    AfterFillsTop(g, Height);
    FullRowsSplitTop(g, 0);
  }
}
