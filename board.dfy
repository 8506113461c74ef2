/** The board object: the grid array and the piece and game fields it
    updates in place, one method per operation.  Every method is proved to
    leave the fields as the corresponding function of module Rules says,
    so the properties proved there hold of the object. */
module BoardEngine {
  import opened Shapes
  import opened Grid
  import opened LineClear
  import opened Rules

  class Board {
    const env: Env
    var board: array<Kind>
    var curPiece: Piece
    var curX: int
    var curY: int
    var nextKind: Kind
    var holdKind: Kind
    var started: bool
    var paused: bool
    var fallingFinished: bool
    var pieceHeld: bool
    var firstPieceMade: bool
    var multiplayer: bool
    /** The pause flag of the tick thread: no tick arrives while it is set. */
    var tickerPaused: bool
    var linesRemoved: int
    /** How many kinds have been drawn from the random stream. */
    var draws: nat

    predicate Valid()
      reads this
    {
      board.Length == Cells
    }

    /** The object's fields as a `Game` value. */
    function Model(): Game
      reads this, board
    {
      Game(board[..], curPiece, curX, curY, nextKind, holdKind, started, paused,
           fallingFinished, pieceHeld, firstPieceMade, multiplayer, tickerPaused,
           linesRemoved, draws)
    }

    /** The square at column x of row y. */
    function ShapeAt(x: int, y: int): (k: Kind)
      reads this, board
      requires 0 <= Index(x, y) < board.Length
      ensures k == At(Model().cells, x, y)
    {
      board[Index(x, y)]
    }

    /** A new board, started at once (and so paused, with a message area). */
    constructor (e: Env)
      ensures Valid() && fresh(board)
      ensures Model() == Rules.Start(e, Initial(e)) && env == e
    {
      env := e;
      curPiece := Canonical(e.geometry, NoShape);
      curX, curY := 0, 0;
      nextKind, holdKind := NoShape, NoShape;
      started, paused, fallingFinished, pieceHeld := false, false, false, false;
      firstPieceMade, multiplayer, tickerPaused := false, false, true;
      linesRemoved, draws := 0, 0;
      board := new Kind[Cells](_ => NoShape);
      new;
      assert Model() == Initial(e);
      Start();
    }

    method SetMultiplayerEnabled(b: bool)
      modifies this
      ensures board == old(board)
      ensures Model() == old(Model()).(multiplayer := b)
    {
      multiplayer := b;
    }

    /** Every square becomes empty. */
    method ClearBoard()
      requires Valid()
      modifies board
      ensures board[..] == EmptyCells()
    {
      for i := 0 to Cells
        invariant forall c :: 0 <= c < i ==> board[c] == NoShape
      {
        board[i] := NoShape;
      }
    }

    /** The collision gate; commits the move when it fits. */
    method TryMove(p: Piece, x: int, y: int) returns (moved: bool)
      requires Valid()
      modifies this
      ensures board == old(board)
      ensures moved == Fits(old(Model()).cells, p, x, y)
      ensures Model() == Rules.TryMove(old(Model()), p, x, y)
    {
      var i := 0;
      while i < 4
        invariant 0 <= i <= 4
        invariant forall q :: 0 <= q < i ==>
          InBounds(SquareX(p, x, q), SquareY(p, y, q)) && board[SquareIndex(p, x, y, q)] == NoShape
      {
        var sx := x + p.offsets[i].x;
        var sy := y - p.offsets[i].y;
        if sx < 0 || sx >= Width || sy < 0 || sy >= Height || ShapeAt(sx, sy) != NoShape {
          assert SquareX(p, x, i) == sx && SquareY(p, y, i) == sy;
          assert !Fits(board[..], p, x, y);
          return false;
        }
        i := i + 1;
      }
      curPiece, curX, curY := p, x, y;
      return true;
    }

    method GameOver()
      modifies this
      ensures board == old(board)
      ensures Model() == Rules.GameOver(env, old(Model()))
    {
      started, fallingFinished, firstPieceMade, pieceHeld := false, false, false, false;
      paused := true;
      curPiece := Canonical(env.geometry, NoShape);
      tickerPaused := paused;
    }

    /** The first half of a spawn: on the very first one, draw the next kind. */
    method DrawFirst()
      modifies this
      ensures board == old(board)
      ensures Model() == Rules.DrawFirst(env, old(Model()))
    {
      if !firstPieceMade {
        nextKind, draws, firstPieceMade := env.draw(draws), draws + 1, true;
      }
    }

    /** The second half: the next kind enters at the top of column 6 and a
      new next kind is drawn. */
    method Spawn()
      modifies this
      ensures board == old(board)
      ensures Model() == Spawned(env, old(Model()))
    {
      curPiece := Canonical(env.geometry, nextKind);
      nextKind, draws := env.draw(draws), draws + 1;
      curX, curY := SpawnX, SpawnY(env, curPiece);
    }

    method NewPiece()
      requires Valid()
      modifies this
      ensures board == old(board)
      ensures Model() == Rules.NewPiece(env, old(Model()))
    {
      DrawFirst();
      Spawn();
      var fits := TryMove(curPiece, curX, curY);
      if !fits {
        GameOver();
      }
    }

    method Hold()
      requires Valid()
      modifies this
      ensures board == old(board)
      ensures Model() == Rules.Hold(env, old(Model()))
    {
      if pieceHeld {
        return;
      }
      Park();
      Enter();
    }

    /** The second half of a hold: place the active piece at the top of
      column 5 without a collision test, and disable hold. */
    method Enter()
      modifies this
      ensures board == old(board)
      ensures Model() == Entered(env, old(Model()))
    {
      curX, curY := HoldX, SpawnY(env, curPiece);
      pieceHeld, fallingFinished := true, false;
    }

    /** The first half of a hold: park the current kind; spawn when the
      slot was empty, otherwise take the kind that was parked. */
    method Park()
      requires Valid()
      modifies this
      ensures board == old(board)
      ensures Model() == Parked(env, old(Model()))
    {
      if holdKind == NoShape {
        holdKind := curPiece.kind;
        NewPiece();
      } else {
        holdKind, curPiece := curPiece.kind, Canonical(env.geometry, holdKind);
      }
    }

    /** Whether row i is full, scanning left to right. */
    method LineIsFull(i: int) returns (full: bool)
      requires Valid() && 0 <= i < Height
      ensures full == RowFull(board[..], i)
    {
      full := true;
      var j := 0;
      while j < Width
        invariant 0 <= j <= Width
        invariant forall q :: 0 <= q < j ==> At(board[..], q, i) != NoShape
      {
        if ShapeAt(j, i) == NoShape {
          full := false;
          break;
        }
        j := j + 1;
      }
    }

    /** Copy every row k + 1 onto row k, for k from i up to 18. */
    method ShiftDownFrom(i: int)
      requires Valid() && 0 <= i < Height
      modifies board
      ensures board[..] == ShiftDown(old(board[..]), i)
    {
      var k := i;
      while k < Height - 1
        invariant i <= k <= Height - 1
        invariant forall c :: 0 <= c < Cells ==>
          board[c] == if 10 * i <= c < 10 * k then old(board[c + 10]) else old(board[c])
      {
        var j := 0;
        while j < Width
          invariant 0 <= j <= Width
          invariant forall c :: 0 <= c < Cells ==>
            board[c] == if 10 * i <= c < 10 * k + j then old(board[c + 10]) else old(board[c])
        {
          board[k * 10 + j] := ShapeAt(j, k + 1);
          j := j + 1;
        }
        k := k + 1;
      }
      assert board[..] == ShiftDown(old(board[..]), i);
    }

    /** Scan rows from the top down, removing each full row; returns how
      many rows were found full. */
    method ClearFullRows() returns (numFullLines: int)
      requires Valid()
      modifies board
      ensures board[..] == Cleared(old(board[..]))
      ensures numFullLines == FullRows(old(board[..]))
    {
      ghost var g := board[..];
      numFullLines := 0;
      var i := Height - 1;
      ghost var scanned: nat := 0;
      ghost var above := Height;
      while i >= 0
        invariant -1 <= i <= Height - 1 && scanned == Height - 1 - i && above == i + 1
        invariant board[..] == After(g, scanned)
        invariant numFullLines == FullRowsIn(g, above, Height)
      {
        AfterStep(g, scanned, i);
        FullRowsStep(g, i, above);
        var full := LineIsFull(i);
        if full {
          numFullLines := numFullLines + 1;
          ShiftDownFrom(i);
        }
        i, scanned, above := i - 1, scanned + 1, i;
      }
    }

    /** Remove the full rows, then account for them. */
    method RemoveFullLines()
      requires Valid()
      modifies this, board
      ensures board == old(board)
      ensures Model() == Rules.RemoveFullLines(env, old(Model()))
    {
      var numFullLines := ClearFullRows();
      Account(numFullLines);
    }

    /** Count the removed rows; after a clear the next tick spawns. */
    method Account(numFullLines: nat)
      modifies this
      ensures board == old(board)
      ensures Model() == Rules.Account(env, old(Model()), numFullLines)
    {
      if numFullLines > 0 {
        linesRemoved, fallingFinished, pieceHeld := linesRemoved + numFullLines, true, false;
        curPiece := Canonical(env.geometry, NoShape);
      }
    }

    /** Write the current piece's kind into its four squares. */
    method LockPiece()
      requires Valid() && Lockable(Model())
      modifies board
      ensures Model() == LockCurrent(old(Model()))
    {
      ghost var g := board[..];
      var i := 0;
      while i < 4
        invariant 0 <= i <= 4
        invariant board[..] == Stamp(g, curPiece, curX, curY, i)
      {
        var x := curX + curPiece.offsets[i].x;
        var y := curY - curPiece.offsets[i].y;
        assert y * 10 + x == SquareIndex(curPiece, curX, curY, i);
        board[y * 10 + x] := curPiece.kind;
        i := i + 1;
      }
    }

    /** The first half of a lock: write the piece, clear lines, re-enable
      hold. */
    method LockAndClear()
      requires Valid() && Lockable(Model())
      modifies this, board
      ensures board == old(board)
      ensures Model() == Locked(env, old(Model()))
    {
      LockPiece();
      RemoveFullLines();
      pieceHeld := false;
    }

    /** Lock the current piece, clear lines, spawn unless a line was
      cleared, and return the update sent in multiplayer mode. */
    method PieceDropped() returns (sent: Option<Snapshot>)
      requires Valid() && Lockable(Model())
      modifies this, board
      ensures board == old(board)
      ensures Step(Model(), sent) == Rules.PieceDropped(env, old(Model()))
    {
      LockAndClear();
      if !fallingFinished {
        NewPiece();
      }
      sent := if multiplayer then Some(Snapshot(holdKind, nextKind, curPiece.kind, board[..])) else None;
    }

    method OneLineDown() returns (sent: Option<Snapshot>)
      requires Valid()
      requires Fits(Model().cells, curPiece, curX, curY - 1) || Lockable(Model())
      modifies this, board
      ensures board == old(board)
      ensures Step(Model(), sent) == Rules.OneLineDown(env, old(Model()))
    {
      ghost var s0 := Model();
      var moved := TryMove(curPiece, curX, curY - 1);
      sent := None;
      if !moved {
        assert Model() == s0 && Lockable(s0);
        assert Rules.OneLineDown(env, s0) == Rules.PieceDropped(env, s0);
        sent := PieceDropped();
      } else {
        assert Rules.OneLineDown(env, s0) == Step(Model(), None);
      }
    }

    /** Descend one row at a time while the row below is above row 0 and
      the piece fits there, then lock. */
    method DropDown() returns (sent: Option<Snapshot>)
      requires Valid() && Lockable(Model().(curY := DropRow(Model())))
      modifies this, board
      ensures board == old(board)
      ensures Step(Model(), sent) == Rules.DropDown(env, old(Model()))
    {
      var newY := curY;
      while newY > 0
        invariant Model() == old(Model()).(curY := newY) && board == old(board)
        invariant LandingY(board[..], curPiece, curX, newY) == DropRow(old(Model()))
      {
        var moved := TryMove(curPiece, curX, newY - 1);
        if !moved {
          break;
        }
        newY := newY - 1;
      }
      sent := PieceDropped();
    }

    /** One tick of the ticker. */
    method ActionPerformed() returns (sent: Option<Snapshot>)
      requires Valid()
      requires fallingFinished || Fits(Model().cells, curPiece, curX, curY - 1) || Lockable(Model())
      modifies this, board
      ensures board == old(board)
      ensures Step(Model(), sent) == Rules.ActionPerformed(env, old(Model()))
    {
      if fallingFinished {
        fallingFinished := false;
        pieceHeld := false;
        NewPiece();
        sent := None;
      } else {
        sent := OneLineDown();
      }
    }

    method Pause()
      modifies this
      ensures board == old(board)
      ensures Model() == Rules.Pause(env, old(Model()))
    {
      if !started || !env.hasOutput {
        return;
      }
      paused := !paused;
      tickerPaused := paused;
    }

    method Start()
      requires Valid()
      modifies this, board
      ensures board == old(board)
      ensures Model() == Rules.Start(env, old(Model()))
    {
      if paused {
        return;
      }
      ghost var s0 := Model();
      started, fallingFinished, multiplayer, pieceHeld := true, false, false, false;
      linesRemoved := 0;
      ClearBoard();
      tickerPaused := true;
      assert Model() == StartReset(s0);
      NewPiece();
      Pause();
    }

    method Restart()
      requires Valid()
      modifies this, board
      ensures board == old(board)
      ensures Model() == Rules.Restart(env, old(Model()))
    {
      if !paused {
        return;
      }
      ghost var s0 := Model();
      started, fallingFinished, firstPieceMade, pieceHeld := true, false, false, false;
      linesRemoved := 0;
      holdKind, nextKind := NoShape, NoShape;
      ClearBoard();
      assert Model() == RestartReset(s0);
      NewPiece();
    }

    /** Take an opponent's update as the board's state; the grid becomes
      a fresh array holding the update's squares. */
    method UpdateBoard(u: Snapshot)
      modifies this
      ensures fresh(board)
      ensures Model() == Rules.UpdateBoard(env, old(Model()), u)
    {
      holdKind := u.held;
      nextKind := u.next;
      curPiece := Canonical(env.geometry, u.cur);
      board := new Kind[|u.cells|](c requires 0 <= c < |u.cells| => u.cells[c]);
    }

    /** A playing key. */
    method KeyPressed(k: Key) returns (sent: Option<Snapshot>)
      requires Valid() && Consistent(Model())
      modifies this, board
      ensures board == old(board)
      ensures Step(Model(), sent) == Rules.KeyPressed(env, old(Model()), k)
    {
      sent := None;
      if paused || !started || curPiece.kind == NoShape {
        return;
      }
      InGridInRange(curPiece, curX, curY);
      match k
      case RotateKey =>
        var moved := TryMove(env.geometry.rotate(curPiece), curX, curY);
      case LeftKey =>
        var moved := TryMove(curPiece, curX - 1, curY);
      case RightKey =>
        var moved := TryMove(curPiece, curX + 1, curY);
      case DownKey =>
        sent := OneLineDown();
      case HoldKey =>
        Hold();
      case DropKey =>
        LandingInGrid(board[..], curPiece, curX, curY);
        InGridInRange(curPiece, curX, DropRow(Model()));
        sent := DropDown();
      case OtherKey =>
    }
  }
}
