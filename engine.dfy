// The pure parts of the falling-block engine shared by the two game
// containers: the board size, the gravity step on a piece, the collision
// layer flattened from the landed pieces, and the two `isCollided` tests.
module Engine {
  import opened TetrisTypes
  import Catalog

  /** `gridSize`: 10 columns, 20 visible rows. */
  const Grid: GridSize := GridSize(10, 20)

  /** `Array.prototype.some`: does some element satisfy `p`? */
  function Any<X>(s: seq<X>, p: X -> bool): bool
  {
    if s == [] then false else p(s[0]) || Any(s[1..], p)
  }

  lemma {:induction false} AnyIff<X>(s: seq<X>, p: X -> bool)
    ensures Any(s, p) <==> exists i :: 0 <= i < |s| && p(s[i])
  {
    if s != [] {
      AnyIff(s[1..], p);
      assert forall i :: 1 <= i < |s| ==> s[i] == s[1..][i - 1];
    }
  }

  // ---------------------------------------------------------------------------
  // Gravity

  /** The cell map of the gravity step. Each new cell is a fresh `{x, y}`
      object, so any `pivotPoint` flag is lost. */
  function FallCells(cells: seq<Position>): (r: seq<Position>)
    ensures |r| == |cells|
    ensures forall i :: 0 <= i < |r| ==> r[i] == Position(cells[i].x, cells[i].y + 1, None)
  {
    if cells == [] then [] else [Position(cells[0].x, cells[0].y + 1, None)] + FallCells(cells[1..])
  }

  /** One gravity step on a piece: `{...prev, shape: prev.shape.map(...)}`. */
  function FallBlock(b: TetrisBlock): (r: TetrisBlock)
    ensures r.name == b.name && r.color == b.color && r.orientation == b.orientation
    ensures |r.shape| == |b.shape|
    ensures forall i :: 0 <= i < |b.shape| ==>
              r.shape[i].x == b.shape[i].x && r.shape[i].y == b.shape[i].y + 1
  {
    b.(shape := FallCells(b.shape))
  }

  /** The updater passed to `setCurrentBlock` by the interval: with no active
      piece it returns its argument unchanged. */
  function GravityStep(current: CurrentBlock): (r: CurrentBlock)
    ensures current.None? ==> r == current
    ensures current.Some? ==> r == Some(FallBlock(current.value))
  {
    match current
    case None => None
    case Some(b) => Some(FallBlock(b))
  }

  /** `n` consecutive gravity steps. */
  function FallN(b: TetrisBlock, n: nat): TetrisBlock
  {
    if n == 0 then b else FallBlock(FallN(b, n - 1))
  }

  /** After n >= 1 steps every cell has moved down exactly n rows and kept its
      column; name, colour, orientation and cell count are unchanged. */
  lemma {:induction false} FallNCells(b: TetrisBlock, n: nat)
    requires n >= 1
    ensures var r := FallN(b, n);
      && r.name == b.name && r.color == b.color && r.orientation == b.orientation
      && |r.shape| == |b.shape|
      && forall i :: 0 <= i < |b.shape| ==> r.shape[i] == Position(b.shape[i].x, b.shape[i].y + n, None)
  {
    if n > 1 {
      FallNCells(b, n - 1);
    }
  }

  /** Cell count and orientation are unchanged by any number of gravity steps. */
  lemma FallNKeepsShapeSize(b: TetrisBlock, n: nat)
    ensures |FallN(b, n).shape| == |b.shape| && FallN(b, n).orientation == b.orientation
  {
  }

  // ---------------------------------------------------------------------------
  // Collision layer (`dormantBlocks.flatMap(block => block.shape)`)

  /** A position is in the layer iff it is a cell of some landed piece. */
  function CollisionLayer(dormant: seq<TetrisBlock>): (r: seq<Position>)
    ensures forall p :: p in r <==> exists k :: 0 <= k < |dormant| && p in dormant[k].shape
  {
    if dormant == [] then []
    else
      var front := dormant[..|dormant| - 1];
      assert forall k :: 0 <= k < |front| ==> front[k] == dormant[k];
      CollisionLayer(front) + dormant[|dormant| - 1].shape
  }

  /** Appending a landed piece appends its cells to the layer, in order. */
  lemma CollisionLayerAppend(dormant: seq<TetrisBlock>, b: TetrisBlock)
    ensures CollisionLayer(dormant + [b]) == CollisionLayer(dormant) + b.shape
  {
  }

  /** With four-cell pieces the layer holds exactly four cells per piece. */
  lemma {:induction false} CollisionLayerLength(dormant: seq<TetrisBlock>)
    requires forall k :: 0 <= k < |dormant| ==> |dormant[k].shape| == 4
    ensures |CollisionLayer(dormant)| == 4 * |dormant|
  {
    if dormant != [] {
      CollisionLayerLength(dormant[..|dormant| - 1]);
    }
  }

  // ---------------------------------------------------------------------------
  // Collision tests

  /** The clean container compares a cell's diagonal neighbour with the layer. */
  predicate TouchesDiagonally(cell: Position, landed: Position)
  {
    cell.x + 1 == landed.x && cell.y + 1 == landed.y
  }

  /** For each cell, `layer.some(...)` holds iff some landed cell is its
      diagonal neighbour. */
  lemma {:induction false} TouchesEachIff(shape: seq<Position>, layer: seq<Position>)
    ensures forall i :: 0 <= i < |shape| ==>
              (Any(layer, (p: Position) => TouchesDiagonally(shape[i], p)) <==>
               exists j :: 0 <= j < |layer| && TouchesDiagonally(shape[i], layer[j]))
  {
    forall i | 0 <= i < |shape| {
      AnyIff(layer, (p: Position) => TouchesDiagonally(shape[i], p));
    }
  }

  /** `isCollided` of the clean container, as written: `collision` is computed
      over the whole shape first and then or-ed into every cell's bottom test.
      It holds iff there is a piece and some cell is at or below row 20, or
      some cell's diagonal neighbour (x+1, y+1) is a landed cell. */
  function IsCollided(current: CurrentBlock, layer: seq<Position>): (r: bool)
    ensures r <==> (current.Some? &&
                    ((exists i :: 0 <= i < |current.value.shape| && current.value.shape[i].y >= Grid.y)
                     || (exists i, j :: 0 <= i < |current.value.shape| && 0 <= j < |layer| &&
                          TouchesDiagonally(current.value.shape[i], layer[j]))))
  {
    match current
    case None => false
    case Some(b) =>
      var touches := (c: Position) => Any(layer, (p: Position) => TouchesDiagonally(c, p));
      var collision := Any(b.shape, touches);
      var bottom := (c: Position) => c.y >= Grid.y || collision;
      AnyIff(b.shape, touches);
      TouchesEachIff(b.shape, layer);
      AnyIff(b.shape, bottom);
      Any(b.shape, bottom)
  }

  /** The mounted container's layer is a memoised empty list. */
  function MountedCollisionLayer(): (r: seq<Position>)
    ensures |r| == 0
  {
    []
  }

  /** The mounted container compares a cell with the layer exactly. */
  predicate Overlaps(cell: Position, landed: Position)
  {
    cell.x == landed.x && cell.y == landed.y
  }

  /** For each cell, `layer.some(...)` holds iff some landed cell is at the
      same place. */
  lemma {:induction false} OverlapsEachIff(shape: seq<Position>, layer: seq<Position>)
    ensures forall i :: 0 <= i < |shape| ==>
              (Any(layer, (p: Position) => Overlaps(shape[i], p)) <==>
               exists j :: 0 <= j < |layer| && Overlaps(shape[i], layer[j]))
  {
    forall i | 0 <= i < |shape| {
      AnyIff(layer, (p: Position) => Overlaps(shape[i], p));
    }
  }

  /** `isCollided` of the mounted container; its falsy `undefined` is false.
      It holds iff there is a piece and some cell is at or below row 20 or
      lies on a landed cell. */
  function MountedIsCollided(current: CurrentBlock, layer: seq<Position>): (r: bool)
    ensures r <==> (current.Some? &&
                    ((exists i :: 0 <= i < |current.value.shape| && current.value.shape[i].y >= Grid.y)
                     || (exists i, j :: 0 <= i < |current.value.shape| && 0 <= j < |layer| &&
                          Overlaps(current.value.shape[i], layer[j]))))
  {
    match current
    case None => false
    case Some(b) =>
      var overlaps := (c: Position) => Any(layer, (p: Position) => Overlaps(c, p));
      var collision := Any(b.shape, overlaps);
      var bottom := (c: Position) => c.y >= Grid.y || collision;
      AnyIff(b.shape, overlaps);
      OverlapsEachIff(b.shape, layer);
      AnyIff(b.shape, bottom);
      Any(b.shape, bottom)
  }

  /** With the always-empty layer only the bottom bound can trigger a merge. */
  lemma MountedIsCollidedIff(current: CurrentBlock)
    ensures MountedIsCollided(current, MountedCollisionLayer()) <==>
              current.Some? && exists i :: 0 <= i < |current.value.shape| && current.value.shape[i].y >= Grid.y
  {
  }

  // ---------------------------------------------------------------------------
  // Landing time from spawn

  /** A spawn piece falling onto an empty board is not collided for its first
      20 gravity steps and is collided on the 21st, when its lowest cell
      reaches row 20, one row below the visible board. Both tests agree. */
  lemma SpawnLandsOnStep21(b: TetrisBlock, n: nat)
    requires Catalog.IsSpawnPiece(b)
    ensures IsCollided(Some(FallN(b, n)), []) <==> n >= 21
    ensures MountedIsCollided(Some(FallN(b, n)), MountedCollisionLayer()) <==> n >= 21
    ensures n == 21 ==> && |FallN(b, n).shape| == 4
                        && (exists i :: 0 <= i < 4 && FallN(b, n).shape[i].y == Grid.y)
                        && forall i :: 0 <= i < 4 ==> FallN(b, n).shape[i].y <= Grid.y
  {
    var r := FallN(b, n);
    if n >= 1 {
      FallNCells(b, n);
    }
    if n >= 21 {
      var i :| 0 <= i < |b.shape| && b.shape[i].y == -1;
      assert r.shape[i].y >= Grid.y;
    }
  }
}
