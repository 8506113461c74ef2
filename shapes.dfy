/** Pieces of the game, as far as the board engine sees them.

    The tetromino tables themselves (the offsets of every kind in every
    orientation, the rotation step and the lowest offset) live in a class
    that is not part of this model.  They are therefore a parameter here:
    a `Geometry` value fixed when a board is built. */
module Shapes {

  /** The seven tetromino kinds and the empty sentinel, in the order of the
      board's colour table. */
  datatype Kind =
    | NoShape
    | ZShape
    | SShape
    | LineShape
    | TShape
    | SquareShape
    | LShape
    | MirroredLShape

  /** A kind that a random draw can yield: every kind but the sentinel. */
  type Tetromino = k: Kind | k != NoShape witness ZShape

  /** One occupied square of a piece, relative to the piece's pivot. */
  datatype Offset = Offset(x: int, y: int)

  /** Every piece, the sentinel included, is described by four offsets. */
  type Offsets = s: seq<Offset> | |s| == 4
    witness [Offset(0, 0), Offset(0, 0), Offset(0, 0), Offset(0, 0)]

  /** A piece: its kind and its four offsets in the current orientation. */
  datatype Piece = Piece(kind: Kind, offsets: Offsets)

  /** The shape tables the engine relies on:
      - `coords(k)` are the offsets a piece gets when it is set to kind `k`;
      - `rotate(p)` is the piece turned by one step;
      - `minY(p)` is the piece's lowest offset, used to place it at the top. */
  datatype Geometry = Geometry(
    coords: Kind -> Offsets,
    rotate: Piece -> Piece,
    minY: Piece -> int)

  /** A piece freshly set to kind `k`, in its canonical orientation. */
  function Canonical(g: Geometry, k: Kind): (p: Piece)
    ensures p.kind == k
  {
    Piece(k, g.coords(k))
  }
}
