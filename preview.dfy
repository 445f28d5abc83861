// The next-piece preview (NextBlock.tsx): a 4 x 6 grid in which a cell is
// painted with the piece's colour when some cell of the piece, shifted into
// the preview's frame, falls on it.
module Preview {
  import opened TetrisTypes
  import Catalog
  import Engine

  /** The preview grid: 4 columns, 6 rows. */
  const PreviewGrid: GridSize := GridSize(4, 6)

  const Transparent: string := "transparent"

  /** `Math.round(x - 2.5)`: for an integer x, x - 2.5 lies exactly halfway
      between x - 3 and x - 2, and JavaScript rounds halves up, so the
      column shift is x - 2. */
  function AdjustedX(x: int): int
  {
    x - 2
  }

  function AdjustedY(y: int): int
  {
    y + 5
  }

  /** `isBlockAtPosition`: a preview cell is occupied iff a piece is shown
      and one of its cells (px, py) satisfies px - 2 == x and py + 5 == y. */
  function IsBlockAtPosition(next: Option<TetrisBlock>, x: int, y: int): (r: bool)
    ensures r <==> (next.Some? &&
                    exists i :: 0 <= i < |next.value.shape| &&
                      next.value.shape[i].x - 2 == x && next.value.shape[i].y + 5 == y)
  {
    match next
    case None => false
    case Some(b) =>
      var here := (p: Position) => AdjustedX(p.x) == x && AdjustedY(p.y) == y;
      Engine.AnyIff(b.shape, here);
      Engine.Any(b.shape, here)
  }

  /** `getBlockColorAtPosition`: an occupied cell gets the piece's colour,
      every other cell (and every cell when no piece is shown) is
      "transparent"; no colour name is "transparent", so the two never mix. */
  function BlockColorAtPosition(next: Option<TetrisBlock>, x: int, y: int): (r: string)
    ensures next.None? ==> r == Transparent
    ensures r == Transparent <==> !IsBlockAtPosition(next, x, y)
    ensures IsBlockAtPosition(next, x, y) ==> r == ColorName(next.value.color)
  {
    if next.None? || !IsBlockAtPosition(next, x, y) then Transparent else ColorName(next.value.color)
  }

  /** The preview cells of the shape: one per shape cell, before clipping to
      the grid. */
  function ShiftedCells(cells: seq<Position>): (r: set<(int, int)>)
    ensures |r| <= |cells|
    ensures forall x, y :: (x, y) in r <==>
              exists i :: 0 <= i < |cells| && AdjustedX(cells[i].x) == x && AdjustedY(cells[i].y) == y
  {
    if cells == [] then {}
    else
      var rest := ShiftedCells(cells[1..]);
      assert forall i :: 1 <= i < |cells| ==> cells[i] == cells[1..][i - 1];
      {(AdjustedX(cells[0].x), AdjustedY(cells[0].y))} + rest
  }

  /** The cells of the preview grid that are painted. */
  function PaintedCells(next: Option<TetrisBlock>): set<(int, int)>
  {
    set x, y | 0 <= x < PreviewGrid.x && 0 <= y < PreviewGrid.y && IsBlockAtPosition(next, x, y) :: (x, y)
  }

  /** No more cells are painted than the shape has cells; none without a piece. */
  lemma PaintedCellsBound(next: Option<TetrisBlock>)
    ensures next.None? ==> PaintedCells(next) == {}
    ensures next.Some? ==> |PaintedCells(next)| <= |next.value.shape|
  {
    if next.Some? {
      var shifted := ShiftedCells(next.value.shape);
      assert PaintedCells(next) <= shifted;
      SubsetCardinality(PaintedCells(next), shifted);
    }
  }

  lemma SubsetCardinality<X>(a: set<X>, b: set<X>)
    requires a <= b
    ensures |a| <= |b|
  {
    assert b == a + (b - a);
  }

  /** Every catalog piece lands in columns 2..3 and rows 1..4 of the preview,
      so the whole piece is visible in the 4 x 6 grid. */
  lemma CatalogFitsPreview(k: nat, i: nat)
    requires k < |Catalog.Entities|
    requires i < |Catalog.Entities[k].shape|
    ensures var p := Catalog.Entities[k].shape[i];
      && 2 <= AdjustedX(p.x) <= 3 && 1 <= AdjustedY(p.y) <= 4
      && 0 <= AdjustedX(p.x) < PreviewGrid.x && 0 <= AdjustedY(p.y) < PreviewGrid.y
      && IsBlockAtPosition(Some(Catalog.Entities[k]), AdjustedX(p.x), AdjustedY(p.y))
  {
  }
}
