/** The geometry of a map grid: 16 x 16 chunks of 8 x 8 sub cells, and the vertices between them. */
module MapGrid {

  const CELLS: nat := 16
  const CELL: nat := 8
  const GRID: nat := 128

  /** The chunk that has the last word on a row or column of vertices. */
  function Owner(k: nat): (i: nat)
    requires k <= GRID
    ensures i < CELLS && CELL * i <= k <= CELL * i + CELL && (k == CELL * i + CELL ==> k == GRID)
  {
    if k == GRID then CELLS - 1 else k / CELL
  }

  predicate Earlier(a: nat, b: nat, i: nat, j: nat)
    requires a <= GRID && b <= GRID
  {
    Owner(a) < i || (Owner(a) == i && Owner(b) < j)
  }

  /** No chunk touches a vertex that an earlier one owns. */
  lemma EarlierIsOutside(a: nat, b: nat, i: nat, j: nat)
    requires a <= GRID && b <= GRID && i < CELLS && j < CELLS
    ensures Earlier(a, b, i, j) ==> !(CELL * i <= a <= CELL * i + CELL && CELL * j <= b <= CELL * j + CELL)
    ensures Earlier(a, b, i, j + 1) ==> Earlier(a, b, i, j) || (Owner(a) == i && Owner(b) == j)
  {
  }
}
