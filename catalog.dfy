// The fixed list of seven spawnable pieces (`tetrisEntityTypes`). Both game
// containers declare the same seven literals, so the list is defined once here.
module Catalog {
  import opened TetrisTypes

  function Cell(x: int, y: int): Position
  {
    Position(x, y, None)
  }

  /** The seven pieces in the order the source lists them. Every piece spawns
      facing "N" in columns 4..5 with its cells in rows -4..-1, above the board. */
  const Entities: seq<TetrisBlock> := [
    TetrisBlock(I, Cyan, N, [Cell(4, -1), Cell(4, -2), Cell(4, -3), Cell(4, -4)]),
    TetrisBlock(O, Yellow, N, [Cell(4, -1), Cell(4, -2), Cell(5, -1), Cell(5, -2)]),
    TetrisBlock(T, Purple, N, [Cell(4, -2), Cell(5, -3), Cell(5, -2), Cell(5, -1)]),
    TetrisBlock(BlockName.S, Green, N, [Cell(4, -3), Cell(4, -2), Cell(5, -2), Cell(5, -1)]),
    TetrisBlock(Z, Red, N, [Cell(5, -3), Cell(5, -2), Cell(4, -2), Cell(4, -1)]),
    TetrisBlock(J, Blue, N, [Cell(4, -1), Cell(4, -2), Cell(4, -3), Cell(5, -3)]),
    TetrisBlock(L, Orange, N, [Cell(5, -1), Cell(5, -2), Cell(5, -3), Cell(4, -3)])
  ]

  /** What every freshly spawned piece looks like: four cells without a pivot
      flag, orientation "N", columns 4..5, rows -4..-1, lowest cell on row -1. */
  predicate IsSpawnPiece(b: TetrisBlock)
  {
    && |b.shape| == 4
    && b.orientation == N
    && (forall i :: 0 <= i < |b.shape| ==>
          && (b.shape[i].x == 4 || b.shape[i].x == 5)
          && -4 <= b.shape[i].y <= -1
          && b.shape[i].pivotPoint == None)
    && (exists i :: 0 <= i < |b.shape| && b.shape[i].y == -1)
  }

  /** The catalog holds the seven names with their fixed colours, in source
      order, and every entry is a spawn piece. */
  lemma EntitiesAreSpawnPieces()
    ensures |Entities| == 7
    ensures forall k :: 0 <= k < 7 ==> Entities[k].name == AllBlockNames[k]
    ensures forall k :: 0 <= k < 7 ==> Entities[k].color == AllColors[k]
    ensures forall k :: 0 <= k < |Entities| ==> IsSpawnPiece(Entities[k])
  {
    forall k | 0 <= k < |Entities| ensures IsSpawnPiece(Entities[k]) {
      assert Entities[k].shape[0].y == -1 || Entities[k].shape[2].y == -1
          || Entities[k].shape[3].y == -1;
    }
  }

  /** `generateNewBlock`: `Math.floor(Math.random() * 7)` is a uniformly drawn
      index in [0, 7); the draw itself is the parameter `pick`. */
  function GenerateNewBlock(pick: nat): (b: TetrisBlock)
    requires pick < |Entities|
    ensures b == Entities[pick] && b in Entities && IsSpawnPiece(b)
  {
    EntitiesAreSpawnPieces();
    Entities[pick]
  }
}
