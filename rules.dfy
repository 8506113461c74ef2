/** The board's state machine as pure functions on a `Game` record: one
    function per operation of the board, each doing what the operation does
    to the fields, in the same order.  The class in module BoardEngine runs
    the same operations in place and is proved against these functions; the
    lemmas here state what the operations promise. */
module Rules {
  import opened Shapes
  import opened Grid
  import opened LineClear

  datatype Option<T> = None | Some(value: T)

  /** Column where a new piece enters (half the width, plus one). */
  const SpawnX: int := 6
  /** Column where a piece taken from the hold slot enters (half the width). */
  const HoldX: int := 5

  /** Row for the pivot of a piece entering at the top. */
  function SpawnY(e: Env, p: Piece): int
  {
    Top + e.geometry.minY(p)
  }

  /** What a board is built with and never changes: the shape tables, the
      stream of random kinds (draw number i yields draw(i)) and whether the
      board has a message area (pausing is ignored without one). */
  datatype Env = Env(geometry: Geometry, draw: nat -> Tetromino, hasOutput: bool)

  /** The fields of a board.  `tickerPaused` is the pause flag of the board's
      tick thread; `draws` counts the random kinds drawn so far. */
  datatype Game = Game(
    cells: seq<Kind>,
    cur: Piece,
    curX: int,
    curY: int,
    next: Kind,
    held: Kind,
    started: bool,
    paused: bool,
    fallingFinished: bool,
    pieceHeld: bool,
    firstPieceMade: bool,
    multiplayer: bool,
    tickerPaused: bool,
    linesRemoved: int,
    draws: nat)

  /** The board update sent to the opponent: held, next and current kinds
      and the whole grid. */
  datatype Snapshot = Snapshot(held: Kind, next: Kind, cur: Kind, cells: seq<Kind>)

  /** The new fields after an operation, and the update it sent, if any. */
  datatype Step = Step(game: Game, sent: Option<Snapshot>)

  /** The grid with every square empty. */
  function EmptyCells(): (g: seq<Kind>)
    ensures |g| == Cells && forall c :: 0 <= c < Cells ==> g[c] == NoShape
  {
    seq(Cells, _ => NoShape)
  }

  /** The current piece's squares address the array, so it can be locked. */
  predicate Lockable(s: Game)
  {
    InRange(s.cur, s.curX, s.curY)
  }

  /** The single collision gate: move to `p` at (x, y) when it fits. */
  function TryMove(s: Game, p: Piece, x: int, y: int): Game
    requires |s.cells| == Cells
  {
    if Fits(s.cells, p, x, y) then s.(cur := p, curX := x, curY := y) else s
  }

  /** The player topped out. */
  function GameOver(e: Env, s: Game): Game
  {
    s.(started := false, fallingFinished := false, firstPieceMade := false,
       pieceHeld := false, paused := true, cur := Canonical(e.geometry, NoShape),
       tickerPaused := true)
  }

  /** The kind the next spawn turns into the current piece. */
  function SpawnKind(e: Env, s: Game): Kind
  {
    if s.firstPieceMade then s.next else e.draw(s.draws)
  }

  /** On the very first spawn the next kind is drawn first. */
  function DrawFirst(e: Env, s: Game): Game
  {
    if s.firstPieceMade then s
    else s.(next := e.draw(s.draws), draws := s.draws + 1, firstPieceMade := true)
  }

  /** The next kind becomes current at the top of column 6, and a new next
      kind is drawn. */
  function Spawned(e: Env, s: Game): Game
  {
    var p := Canonical(e.geometry, s.next);
    s.(cur := p, next := e.draw(s.draws), draws := s.draws + 1, curX := SpawnX, curY := SpawnY(e, p))
  }

  /** Spawn: the next kind becomes current (drawn first on the very first
      call), a new next kind is drawn, the cursor goes to the top and the
      game ends if the piece does not fit there. */
  function NewPiece(e: Env, s: Game): Game
    requires |s.cells| == Cells
  {
    var s2 := Spawned(e, DrawFirst(e, s));
    if Fits(s2.cells, s2.cur, s2.curX, s2.curY) then s2 else GameOver(e, s2)
  }

  /** The first half of a hold: park the current kind, then spawn when the
      slot was empty or take the parked kind otherwise. */
  function Parked(e: Env, s: Game): Game
    requires |s.cells| == Cells
  {
    if s.held == NoShape then NewPiece(e, s.(held := s.cur.kind))
    else s.(held := s.cur.kind, cur := Canonical(e.geometry, s.held))
  }

  /** Hold: once per falling cycle, park the current kind and bring in a
      new piece; then put the active piece at the top of column 5 without
      a collision test. */
  function Hold(e: Env, s: Game): Game
    requires |s.cells| == Cells
  {
    if s.pieceHeld then s else Entered(e, Parked(e, s))
  }

  /** The second half of a hold: the active piece goes to the top of
      column 5, unchecked, and hold is disabled until the next lock. */
  function Entered(e: Env, s: Game): Game
  {
    s.(curX := HoldX, curY := SpawnY(e, s.cur), pieceHeld := true, fallingFinished := false)
  }

  /** Remove the full rows and account for them. */
  function RemoveFullLines(e: Env, s: Game): Game
    requires |s.cells| == Cells
  {
    Account(e, ClearRows(s), FullRows(s.cells))
  }

  /** Counting n removed rows: when there are any, the current piece is
      emptied, falling stops and hold is re-enabled. */
  function Account(e: Env, s: Game, n: nat): Game
  {
    if n > 0 then
      s.(linesRemoved := s.linesRemoved + n, fallingFinished := true, pieceHeld := false,
         cur := Canonical(e.geometry, NoShape))
    else s
  }

  /** The game with its full rows removed from the grid. */
  function ClearRows(s: Game): Game
    requires |s.cells| == Cells
  {
    s.(cells := Cleared(s.cells))
  }

  function TakeSnapshot(s: Game): Snapshot
  {
    Snapshot(s.held, s.next, s.cur.kind, s.cells)
  }

  /** The first half of a lock: write the piece into the grid, clear
      lines, and re-enable hold. */
  function Locked(e: Env, s: Game): Game
    requires |s.cells| == Cells && Lockable(s)
  {
    RemoveFullLines(e, LockCurrent(s)).(pieceHeld := false)
  }

  /** The grid with the current piece written into it. */
  function LockCurrent(s: Game): Game
    requires |s.cells| == Cells && Lockable(s)
  {
    s.(cells := Lock(s.cells, s.cur, s.curX, s.curY))
  }

  /** Lock the current piece, clear lines, re-enable hold, spawn unless a
      line was cleared, and send the resulting board in multiplayer mode. */
  function PieceDropped(e: Env, s: Game): Step
    requires |s.cells| == Cells && Lockable(s)
  {
    var s1 := Locked(e, s);
    var s2 := if s1.fallingFinished then s1 else NewPiece(e, s1);
    Step(s2, if s2.multiplayer then Some(TakeSnapshot(s2)) else None)
  }

  /** Soft drop: one row down, or lock when that is rejected. */
  function OneLineDown(e: Env, s: Game): Step
    requires |s.cells| == Cells
    requires Fits(s.cells, s.cur, s.curX, s.curY - 1) || Lockable(s)
  {
    if Fits(s.cells, s.cur, s.curX, s.curY - 1) then Step(TryMove(s, s.cur, s.curX, s.curY - 1), None)
    else PieceDropped(e, s)
  }

  /** The cursor row a hard drop locks at. */
  function DropRow(s: Game): int
    requires |s.cells| == Cells
  {
    LandingY(s.cells, s.cur, s.curX, s.curY)
  }

  /** Hard drop: descend row by row in the same column, then lock. */
  function DropDown(e: Env, s: Game): Step
    requires |s.cells| == Cells && Lockable(s.(curY := DropRow(s)))
  {
    PieceDropped(e, s.(curY := DropRow(s)))
  }

  /** One tick: spawn after a line clear, otherwise a soft drop. */
  function ActionPerformed(e: Env, s: Game): Step
    requires |s.cells| == Cells
    requires s.fallingFinished || Fits(s.cells, s.cur, s.curX, s.curY - 1) || Lockable(s)
  {
    if s.fallingFinished then Step(NewPiece(e, s.(fallingFinished := false, pieceHeld := false)), None)
    else OneLineDown(e, s)
  }

  /** Toggle pause, only once started and when there is a message area. */
  function Pause(e: Env, s: Game): Game
  {
    if !s.started || !e.hasOutput then s else s.(paused := !s.paused, tickerPaused := !s.paused)
  }

  /** The reset start performs before spawning: a fresh empty game in
      single-player mode, with a new ticker that starts paused. */
  function StartReset(s: Game): Game
  {
    s.(started := true, fallingFinished := false, multiplayer := false, pieceHeld := false,
       linesRemoved := 0, cells := EmptyCells(), tickerPaused := true)
  }

  /** Start: ignored while paused; otherwise reset, spawn, then pause. */
  function Start(e: Env, s: Game): Game
    requires |s.cells| == Cells
  {
    if s.paused then s else Pause(e, NewPiece(e, StartReset(s)))
  }

  /** The reset restart performs before spawning: count, hold and next
      slots and grid cleared, and the next spawn draws afresh. */
  function RestartReset(s: Game): Game
  {
    s.(started := true, fallingFinished := false, firstPieceMade := false, pieceHeld := false,
       linesRemoved := 0, held := NoShape, next := NoShape, cells := EmptyCells())
  }

  /** Restart: only while paused; reset, then spawn. */
  function Restart(e: Env, s: Game): Game
    requires |s.cells| == Cells
  {
    if !s.paused then s else NewPiece(e, RestartReset(s))
  }

  /** The fields of a board before its constructor starts it: empty
      pieces, no hold, single player, no ticker yet, nothing drawn. */
  function Initial(e: Env): Game
  {
    Game(EmptyCells(), Canonical(e.geometry, NoShape), 0, 0, NoShape, NoShape,
         false, false, false, false, false, false, true, 0, 0)
  }

  /** Apply an opponent's update to a mirror board, unvalidated. */
  function UpdateBoard(e: Env, s: Game, u: Snapshot): Game
  {
    s.(held := u.held, next := u.next, cur := Canonical(e.geometry, u.cur), cells := u.cells)
  }

  /** The playing keys, grouped by what they do. */
  datatype Key = RotateKey | LeftKey | RightKey | DownKey | HoldKey | DropKey | OtherKey

  /** Playing keys are ignored while paused, before the start and while
      there is no current piece. */
  predicate InputEnabled(s: Game)
  {
    !s.paused && s.started && s.cur.kind != NoShape
  }

  /** The invariant the board keeps between operations: a running ticker
      means a running game, and once started, either a line clear is
      pending with no current piece, or the current piece is on the grid. */
  predicate Consistent(s: Game)
  {
    && |s.cells| == Cells
    && (!s.tickerPaused ==> s.started && !s.paused)
    && (s.started ==>
          if s.fallingFinished then s.cur.kind == NoShape else InGrid(s.cur, s.curX, s.curY))
  }

  /** A playing key. */
  function KeyPressed(e: Env, s: Game, k: Key): Step
    requires Consistent(s)
  {
    if !InputEnabled(s) then Step(s, None)
    else
      match k
      case RotateKey => Step(TryMove(s, e.geometry.rotate(s.cur), s.curX, s.curY), None)
      case LeftKey => Step(TryMove(s, s.cur, s.curX - 1, s.curY), None)
      case RightKey => Step(TryMove(s, s.cur, s.curX + 1, s.curY), None)
      case DownKey => InGridInRange(s.cur, s.curX, s.curY); OneLineDown(e, s)
      case HoldKey => Step(Hold(e, s), None)
      case DropKey =>
        LandingInGrid(s.cells, s.cur, s.curX, s.curY);
        InGridInRange(s.cur, s.curX, DropRow(s));
        DropDown(e, s)
      case OtherKey => Step(s, None)
  }

  /** What the shape tables must satisfy for hold to keep the piece on the
      grid: every canonical piece fits the board at the top of column 5. */
  predicate ValidGeometry(g: Geometry)
  {
    forall k: Kind :: InGrid(Canonical(g, k), HoldX, Top + g.minY(Canonical(g, k)))
  }

  // ---------------------------------------------------------------------
  // Collision gate

  /** tryMove never touches the grid.  It succeeds exactly when the
      candidate's four squares are on the grid and every grid square it
      covers is empty; then the board's piece sits where it fits and
      nothing but piece and cursor has changed.  A rejected move changes
      nothing, and repeating a move changes nothing more. */
  lemma TryMoveCommitsOrRejects(s: Game, p: Piece, x: int, y: int)
    requires |s.cells| == Cells
    ensures var r := TryMove(s, p, x, y);
      && r.cells == s.cells
      && (Fits(s.cells, p, x, y) <==>
            InGrid(p, x, y) && forall c :: 0 <= c < Cells && Covers(p, x, y, c) ==> s.cells[c] == NoShape)
      && (Fits(s.cells, p, x, y) ==>
            Fits(r.cells, r.cur, r.curX, r.curY) && r.(cur := s.cur, curX := s.curX, curY := s.curY) == s)
      && (!Fits(s.cells, p, x, y) ==> r == s)
      && TryMove(r, p, x, y) == r
  {
    FitsFreeSquares(s.cells, p, x, y);
  }

  // ---------------------------------------------------------------------
  // Spawning and game over

  /** The spawned piece is the previous next kind (or a first draw), a new
      next kind is drawn, the cursor is reset to the top of column 6, and
      a rejected placement ends the game. */
  lemma NewPieceSpawnsOrEnds(e: Env, s: Game)
    requires |s.cells| == Cells
    ensures var r := NewPiece(e, s);
      var k := SpawnKind(e, s);
      var p := Canonical(e.geometry, k);
      && r.cells == s.cells && r.held == s.held && r.linesRemoved == s.linesRemoved
      && r.next == e.draw(if s.firstPieceMade then s.draws else s.draws + 1)
      && r.draws == (if s.firstPieceMade then s.draws + 1 else s.draws + 2)
      && r.curX == SpawnX && r.curY == Top + e.geometry.minY(p)
      && (Fits(s.cells, p, SpawnX, r.curY) ==>
            r.cur == p && r.firstPieceMade && r.started == s.started && r.paused == s.paused
            && r.tickerPaused == s.tickerPaused && r.fallingFinished == s.fallingFinished
            && r.pieceHeld == s.pieceHeld)
      && (!Fits(s.cells, p, SpawnX, r.curY) ==>
            r.cur.kind == NoShape && !r.started && r.paused && r.tickerPaused
            && !r.fallingFinished && !r.pieceHeld && !r.firstPieceMade)
  {
  }

  /** After a game over no operation but restart changes anything: keys
      are ignored, start and pause are no-ops, and the ticker is paused, so
      no tick is delivered. */
  lemma {:induction false} GameOverFreezes(e: Env, s: Game, k: Key)
    requires |s.cells| == Cells
    ensures var g := GameOver(e, s);
      && g.tickerPaused && !g.started && g.paused && g.cur.kind == NoShape
      && Consistent(g)
      && KeyPressed(e, g, k) == Step(g, None)
      && Start(e, g) == g
      && Pause(e, g) == g
  {
  }

  // ---------------------------------------------------------------------
  // Hold

  /** A second hold in the same cycle changes nothing. */
  lemma HoldOncePerCycle(e: Env, s: Game)
    requires |s.cells| == Cells
    ensures |Hold(e, s).cells| == Cells
    ensures Hold(e, Hold(e, s)) == Hold(e, s)
  {
    HoldDisables(e, s);
  }

  /** After a hold, hold is disabled and the grid is the same. */
  lemma HoldDisables(e: Env, s: Game)
    requires |s.cells| == Cells
    ensures Hold(e, s).pieceHeld && Hold(e, s).cells == s.cells
  {
    if !s.pieceHeld && s.held == NoShape {
      NewPieceSpawnsOrEnds(e, s.(held := s.cur.kind));
    }
  }

  /** Holding with an empty slot parks the current kind and spawns. */
  lemma HoldIntoEmptySlot(e: Env, s: Game)
    requires |s.cells| == Cells && !s.pieceHeld && s.held == NoShape
    ensures var r := Hold(e, s);
      var spawned := NewPiece(e, s.(held := s.cur.kind));
      && r.held == s.cur.kind && r.cur == spawned.cur && r.next == spawned.next
      && r.cells == s.cells
      && r.curX == HoldX && r.curY == Top + e.geometry.minY(r.cur)
      && r.pieceHeld && !r.fallingFinished
  {
  }

  /** Holding with a parked kind swaps it with the current kind. */
  lemma HoldSwapsWithSlot(e: Env, s: Game)
    requires |s.cells| == Cells && !s.pieceHeld && s.held != NoShape
    ensures var r := Hold(e, s);
      && r.held == s.cur.kind && r.cur == Canonical(e.geometry, s.held)
      && r.next == s.next && r.cells == s.cells && r.draws == s.draws
      && r.curX == HoldX && r.curY == Top + e.geometry.minY(r.cur)
      && r.pieceHeld && !r.fallingFinished
  {
  }

  // ---------------------------------------------------------------------
  // Locking

  /** The board after a lock: the locked grid cleared, the cleared rows
      counted, hold re-enabled; with a clear no spawn happens (the current
      piece is empty and the next tick spawns), without one the next piece
      spawns; the update sent is the resulting board. */
  lemma PieceDroppedOutcome(e: Env, s: Game)
    requires |s.cells| == Cells && Lockable(s) && !s.fallingFinished
    ensures var st := PieceDropped(e, s);
      var r := st.game;
      var g := Lock(s.cells, s.cur, s.curX, s.curY);
      && r.cells == Cleared(g)
      && r.linesRemoved == s.linesRemoved + FullRows(g)
      && !r.pieceHeld
      && (FullRows(g) > 0 ==>
            r.cur.kind == NoShape && r.fallingFinished && r.next == s.next && r.draws == s.draws)
      && (FullRows(g) == 0 ==> r == NewPiece(e, s.(cells := g, pieceHeld := false)))
      && st.sent == if s.multiplayer then Some(Snapshot(r.held, r.next, r.cur.kind, r.cells)) else None
  {
    var g := Lock(s.cells, s.cur, s.curX, s.curY);
    LockedOutcome(e, s);
    if FullRows(g) == 0 {
      NewPieceSpawnsOrEnds(e, Locked(e, s));
    }
  }

  /** Locking and clearing, before any spawn: with a clear the current
      piece is emptied and falling stops; without one, only the piece's
      squares and the hold flag change. */
  lemma LockedOutcome(e: Env, s: Game)
    requires |s.cells| == Cells && Lockable(s) && !s.fallingFinished
    ensures var r := Locked(e, s);
      var g := Lock(s.cells, s.cur, s.curX, s.curY);
      && r.cells == Cleared(g)
      && r.linesRemoved == s.linesRemoved + FullRows(g)
      && !r.pieceHeld && r.multiplayer == s.multiplayer
      && (FullRows(g) > 0 ==>
            r.cur.kind == NoShape && r.fallingFinished && r.next == s.next && r.draws == s.draws)
      && (FullRows(g) == 0 ==> r == s.(cells := g, pieceHeld := false))
  {
    var g := Lock(s.cells, s.cur, s.curX, s.curY);
    if FullRows(g) == 0 {
      AfterWithoutFullRows(g, Height);
    }
  }

  /** A lock never changes the squares off the piece except through the
      line clear: before the clear, the grid differs from the old one only
      in the piece's squares, which hold its kind. */
  lemma PieceDroppedWritesOnlyPiece(e: Env, s: Game)
    requires |s.cells| == Cells && Lockable(s)
    ensures var g := Lock(s.cells, s.cur, s.curX, s.curY);
      && PieceDropped(e, s).game.cells == Cleared(g)
      && forall c :: 0 <= c < Cells ==>
           g[c] == if Covers(s.cur, s.curX, s.curY, c) then s.cur.kind else s.cells[c]
  {
    LockAt(s.cells, s.cur, s.curX, s.curY);
    PieceDroppedCells(e, s);
  }

  /** The grid after a lock is the cleared locked grid, spawn or not. */
  lemma PieceDroppedCells(e: Env, s: Game)
    requires |s.cells| == Cells && Lockable(s)
    ensures PieceDropped(e, s).game.cells == Cleared(Lock(s.cells, s.cur, s.curX, s.curY))
  {
    var s1 := Locked(e, s);
    LockedCells(e, s);
    if !s1.fallingFinished {
      NewPieceSpawnsOrEnds(e, s1);
    }
  }

  /** Locking leaves the cleared locked grid. */
  lemma LockedCells(e: Env, s: Game)
    requires |s.cells| == Cells && Lockable(s)
    ensures Locked(e, s).cells == Cleared(Lock(s.cells, s.cur, s.curX, s.curY))
  {
    var g := Lock(s.cells, s.cur, s.curX, s.curY);
    assert LockCurrent(s).cells == g;
    assert ClearRows(LockCurrent(s)).cells == Cleared(g);
    assert RemoveFullLines(e, LockCurrent(s)).cells == Cleared(g);
  }

  /** After a lock that cleared lines, the next tick re-enables falling and
      spawns the piece that was next. */
  lemma TickAfterClearSpawns(e: Env, s: Game)
    requires |s.cells| == Cells && Lockable(s) && !s.fallingFinished
    requires FullRows(Lock(s.cells, s.cur, s.curX, s.curY)) > 0
    ensures var r := PieceDropped(e, s).game;
      && |r.cells| == Cells
      && var t := ActionPerformed(e, r);
      && !t.game.fallingFinished && !t.game.pieceHeld && t.sent == None
      && (t.game.started ==> t.game.cur == Canonical(e.geometry, SpawnKind(e, r)))
  {
    PieceDroppedOutcome(e, s);
  }

  /** A locked piece is in its canonical orientation, so the update sent
      after a lock carries everything a mirror needs to redraw it. */
  lemma PieceDroppedLeavesCanonical(e: Env, s: Game)
    requires |s.cells| == Cells && Lockable(s) && !s.fallingFinished
    ensures var r := PieceDropped(e, s).game; r.cur == Canonical(e.geometry, r.cur.kind)
  {
    var g := Lock(s.cells, s.cur, s.curX, s.curY);
    var s1 := Locked(e, s);
    if FullRows(g) > 0 {
      LockedWithClear(e, s);
    } else {
      LockedWithoutClear(e, s);
      NewPieceCanonical(e, s1);
    }
  }

  /** A lock that clears rows empties the current piece and stops falling. */
  lemma LockedWithClear(e: Env, s: Game)
    requires |s.cells| == Cells && Lockable(s)
    requires FullRows(Lock(s.cells, s.cur, s.curX, s.curY)) > 0
    ensures Locked(e, s).fallingFinished && Locked(e, s).cur == Canonical(e.geometry, NoShape)
  {
    var s1 := LockCurrent(s);
    assert FullRows(s1.cells) > 0;
  }

  /** A lock that clears no row keeps falling on. */
  lemma LockedWithoutClear(e: Env, s: Game)
    requires |s.cells| == Cells && Lockable(s) && !s.fallingFinished
    requires FullRows(Lock(s.cells, s.cur, s.curX, s.curY)) == 0
    ensures !Locked(e, s).fallingFinished
  {
    var s1 := LockCurrent(s);
    assert FullRows(s1.cells) == 0;
  }

  /** A spawn leaves a canonical piece, the spawned one or the empty one. */
  lemma NewPieceCanonical(e: Env, s: Game)
    requires |s.cells| == Cells
    ensures NewPiece(e, s).cur == Canonical(e.geometry, NewPiece(e, s).cur.kind)
  {
  }

  // ---------------------------------------------------------------------
  // Descent

  /** A soft drop either moves the piece exactly one row down, changing
      nothing else, or locks it where it is. */
  lemma OneLineDownMovesOrLocks(e: Env, s: Game)
    requires |s.cells| == Cells && Lockable(s)
    ensures var st := OneLineDown(e, s);
      if Fits(s.cells, s.cur, s.curX, s.curY - 1)
      then st == Step(s.(curY := s.curY - 1), None)
      else st == PieceDropped(e, s)
  {
    if Fits(s.cells, s.cur, s.curX, s.curY - 1) {
      OneLineDownMoves(e, s);
    }
  }

  lemma OneLineDownMoves(e: Env, s: Game)
    requires |s.cells| == Cells && Fits(s.cells, s.cur, s.curX, s.curY - 1)
    ensures OneLineDown(e, s) == Step(s.(curY := s.curY - 1), None)
  {
  }

  /** A hard drop keeps the column: it locks the piece in its own column,
      on the lowest row reached by descending one row at a time through
      rows where it fits, stopping at row 0 or above the first collision. */
  lemma DropDownLocksInColumn(e: Env, s: Game)
    requires |s.cells| == Cells && InGrid(s.cur, s.curX, s.curY)
    ensures var y := DropRow(s);
      && y <= s.curY && Lockable(s.(curY := y))
      && (forall y' :: y <= y' < s.curY ==> Fits(s.cells, s.cur, s.curX, y'))
      && (y > 0 ==> !Fits(s.cells, s.cur, s.curX, y - 1))
      && DropDown(e, s).game.cells == Cleared(Lock(s.cells, s.cur, s.curX, y))
  {
    LandingYIsLowestReachable(s.cells, s.cur, s.curX, s.curY);
    LandingInGrid(s.cells, s.cur, s.curX, s.curY);
    InGridInRange(s.cur, s.curX, DropRow(s));
    PieceDroppedCells(e, s.(curY := DropRow(s)));
  }

  // ---------------------------------------------------------------------
  // Lifecycle

  /** start does nothing while paused; otherwise it leaves a fresh game
      with an empty grid, no lines, a spawned piece and (with a message
      area) paused. */
  lemma StartOutcome(e: Env, s: Game)
    requires |s.cells| == Cells
    ensures var r := Start(e, s);
      && (s.paused ==> r == s)
      && (!s.paused ==>
            && r.cells == EmptyCells() && r.linesRemoved == 0 && !r.multiplayer
            && r.tickerPaused && !r.pieceHeld
            && (r.started ==> r.paused == e.hasOutput))
  {
  }

  /** pause toggles the pause flag together with the ticker's, only once
      started and with a message area; pausing twice restores the board. */
  lemma PauseToggles(e: Env, s: Game)
    ensures var r := Pause(e, s);
      && (s.started && e.hasOutput ==> r == s.(paused := !s.paused, tickerPaused := !s.paused))
      && (!s.started || !e.hasOutput ==> r == s)
      && (s.tickerPaused == s.paused ==> Pause(e, r) == s)
  {
  }

  /** restart does nothing unless paused; otherwise it resets the count,
      the hold and next slots and every square, and spawns from a first
      draw. */
  lemma RestartOutcome(e: Env, s: Game)
    requires |s.cells| == Cells
    ensures var r := Restart(e, s);
      && (!s.paused ==> r == s)
      && (s.paused ==>
            && r.linesRemoved == 0 && r.held == NoShape && r.cells == EmptyCells()
            && r.next == e.draw(s.draws + 1) && r.draws == s.draws + 2
            && r.paused
            && (r.started ==>
                  r.cur == Canonical(e.geometry, e.draw(s.draws)) && !r.fallingFinished
                  && r.tickerPaused == s.tickerPaused))
  {
    if s.paused {
      NewPieceSpawnsOrEnds(e, RestartReset(s));
    }
  }

  /** A new board is started, consistent, and waits paused (when it has
      a message area) with a first piece from the first two draws. */
  lemma InitialStart(e: Env)
    ensures var r := Start(e, Initial(e));
      && Consistent(r) && r.cells == EmptyCells() && r.tickerPaused
      && r.next == e.draw(1) && r.draws == 2
      && (r.started ==> r.cur == Canonical(e.geometry, e.draw(0)) && r.paused == e.hasOutput)
  {
    LifecycleConsistent(e, Initial(e));
    NewPieceSpawnsOrEnds(e, StartReset(Initial(e)));
  }

  // ---------------------------------------------------------------------
  // Mirror

  /** The mirror takes an update whole: the update read back from it is
      the update itself, a later update overrides an earlier one entirely,
      and the mirror's cursor, flags and count stay as they were. */
  lemma UpdateBoardCopies(e: Env, s: Game, u: Snapshot, earlier: Snapshot)
    ensures TakeSnapshot(UpdateBoard(e, s, u)) == u
    ensures UpdateBoard(e, UpdateBoard(e, s, earlier), u) == UpdateBoard(e, s, u)
    ensures var r := UpdateBoard(e, s, u);
      && r.curX == s.curX && r.curY == s.curY && r.started == s.started && r.paused == s.paused
      && r.multiplayer == s.multiplayer && r.linesRemoved == s.linesRemoved
  {
  }

  /** An update sent after a lock reproduces, on a mirror built with the
      same shape tables, the sender's held, next and current pieces and
      its grid. */
  lemma SnapshotRoundTrip(e: Env, s: Game, mirrorEnv: Env, mirror: Game)
    requires |s.cells| == Cells && Lockable(s) && !s.fallingFinished && s.multiplayer
    requires mirrorEnv.geometry == e.geometry
    ensures var st := PieceDropped(e, s);
      && st.sent.Some?
      && var m := UpdateBoard(mirrorEnv, mirror, st.sent.value);
      && m.held == st.game.held && m.next == st.game.next
      && m.cur == st.game.cur && m.cells == st.game.cells
  {
    PieceDroppedLeavesCanonical(e, s);
    PieceDroppedSends(e, s);
  }

  /** In multiplayer mode a lock sends the board it leaves. */
  lemma PieceDroppedSends(e: Env, s: Game)
    requires |s.cells| == Cells && Lockable(s) && s.multiplayer
    ensures PieceDropped(e, s).sent == Some(TakeSnapshot(PieceDropped(e, s).game))
  {
    var s1 := Locked(e, s);
    LockedKeepsMode(e, s);
    if !s1.fallingFinished {
      NewPieceKeepsMode(e, s1);
    }
  }

  lemma LockedKeepsMode(e: Env, s: Game)
    requires |s.cells| == Cells && Lockable(s)
    ensures Locked(e, s).multiplayer == s.multiplayer
  {
    assert LockCurrent(s).multiplayer == s.multiplayer;
  }

  lemma NewPieceKeepsMode(e: Env, s: Game)
    requires |s.cells| == Cells
    ensures NewPiece(e, s).multiplayer == s.multiplayer
  {
  }

  // ---------------------------------------------------------------------
  // The invariant

  /** A spawn establishes the invariant whatever the current piece was. */
  lemma NewPieceConsistent(e: Env, s: Game)
    requires |s.cells| == Cells && (!s.tickerPaused ==> s.started && !s.paused)
    requires s.started ==> !s.fallingFinished
    ensures Consistent(NewPiece(e, s))
  {
    NewPieceSpawnsOrEnds(e, s);
  }

  lemma PieceDroppedConsistent(e: Env, s: Game)
    requires Consistent(s) && Lockable(s) && !s.fallingFinished
    ensures Consistent(PieceDropped(e, s).game)
  {
    var g := Lock(s.cells, s.cur, s.curX, s.curY);
    PieceDroppedOutcome(e, s);
    if FullRows(g) == 0 {
      NewPieceConsistent(e, s.(cells := g, pieceHeld := false));
    }
  }

  /** A tick, which only arrives while the ticker runs, keeps the invariant. */
  lemma TickConsistent(e: Env, s: Game)
    requires Consistent(s) && !s.tickerPaused
    ensures s.fallingFinished || Lockable(s)
    ensures Consistent(ActionPerformed(e, s).game)
  {
    if s.fallingFinished {
      TickSpawnConsistent(e, s);
    } else {
      TickDescentConsistent(e, s);
    }
  }

  lemma TickSpawnConsistent(e: Env, s: Game)
    requires Consistent(s) && s.fallingFinished
    ensures Consistent(ActionPerformed(e, s).game)
  {
    NewPieceConsistent(e, s.(fallingFinished := false, pieceHeld := false));
  }

  lemma TickDescentConsistent(e: Env, s: Game)
    requires Consistent(s) && s.started && !s.fallingFinished
    ensures Lockable(s)
    ensures Consistent(ActionPerformed(e, s).game)
  {
    DownKeyConsistent(e, s);
  }

  /** Hold keeps the invariant when the shape tables let every piece enter
      at the top of column 5. */
  lemma HoldConsistent(e: Env, s: Game)
    requires Consistent(s) && ValidGeometry(e.geometry) && (s.started ==> !s.fallingFinished)
    ensures Consistent(Hold(e, s))
  {
    if !s.pieceHeld {
      ParkedCanonical(e, s);
      var s1 := Parked(e, s);
      assert InGrid(Canonical(e.geometry, s1.cur.kind), HoldX,
                    Top + e.geometry.minY(Canonical(e.geometry, s1.cur.kind)));
    }
  }

  /** The piece a hold brings in is canonical, and the first half of a
      hold keeps the grid and the ticker's link to a running game. */
  lemma ParkedCanonical(e: Env, s: Game)
    requires Consistent(s)
    ensures var s1 := Parked(e, s);
      && s1.cur == Canonical(e.geometry, s1.cur.kind) && s1.cells == s.cells
      && (!s1.tickerPaused ==> s1.started && !s1.paused)
  {
    if s.held == NoShape {
      NewPieceSpawnsOrEnds(e, s.(held := s.cur.kind));
    }
  }

  /** A committed move lands on the grid, so the gate keeps the invariant. */
  lemma TryMoveConsistent(s: Game, p: Piece, x: int, y: int)
    requires Consistent(s) && (s.started ==> !s.fallingFinished)
    ensures Consistent(TryMove(s, p, x, y))
  {
    if Fits(s.cells, p, x, y) {
      FitsInGrid(s.cells, p, x, y);
    }
  }

  lemma DropKeyConsistent(e: Env, s: Game)
    requires Consistent(s) && s.started && !s.fallingFinished
    ensures Lockable(s.(curY := DropRow(s)))
    ensures Consistent(DropDown(e, s).game)
  {
    LandingInGrid(s.cells, s.cur, s.curX, s.curY);
    InGridInRange(s.cur, s.curX, DropRow(s));
    PieceDroppedConsistent(e, s.(curY := DropRow(s)));
  }

  lemma DownKeyConsistent(e: Env, s: Game)
    requires Consistent(s) && s.started && !s.fallingFinished
    ensures Lockable(s)
    ensures Consistent(OneLineDown(e, s).game)
  {
    InGridInRange(s.cur, s.curX, s.curY);
    if Fits(s.cells, s.cur, s.curX, s.curY - 1) {
      DownMoveConsistent(e, s);
    } else {
      DownLockConsistent(e, s);
    }
  }

  lemma DownMoveConsistent(e: Env, s: Game)
    requires Consistent(s) && s.started && !s.fallingFinished
    requires Fits(s.cells, s.cur, s.curX, s.curY - 1)
    ensures Consistent(OneLineDown(e, s).game)
  {
    OneLineDownMoves(e, s);
    TryMoveConsistent(s, s.cur, s.curX, s.curY - 1);
    assert TryMove(s, s.cur, s.curX, s.curY - 1) == s.(curY := s.curY - 1);
  }

  lemma DownLockConsistent(e: Env, s: Game)
    requires Consistent(s) && s.started && !s.fallingFinished && Lockable(s)
    requires !Fits(s.cells, s.cur, s.curX, s.curY - 1)
    ensures Consistent(OneLineDown(e, s).game)
  {
    PieceDroppedConsistent(e, s);
  }

  /** Every playing key keeps the invariant. */
  lemma KeyConsistent(e: Env, s: Game, k: Key)
    requires Consistent(s) && ValidGeometry(e.geometry)
    ensures Consistent(KeyPressed(e, s, k).game)
  {
    if InputEnabled(s) {
      match k
      case RotateKey => TryMoveConsistent(s, e.geometry.rotate(s.cur), s.curX, s.curY);
      case LeftKey => TryMoveConsistent(s, s.cur, s.curX - 1, s.curY);
      case RightKey => TryMoveConsistent(s, s.cur, s.curX + 1, s.curY);
      case DownKey => DownKeyConsistent(e, s);
      case HoldKey => HoldConsistent(e, s);
      case DropKey => DropKeyConsistent(e, s);
      case OtherKey =>
    }
  }

  /** start, pause and restart keep the invariant. */
  lemma LifecycleConsistent(e: Env, s: Game)
    requires Consistent(s)
    ensures Consistent(Start(e, s)) && Consistent(Pause(e, s)) && Consistent(Restart(e, s))
  {
    if !s.paused {
      NewPieceConsistent(e, StartReset(s));
    } else {
      NewPieceConsistent(e, RestartReset(s));
    }
  }
}
