/** The board of one side: a square array of squares that the game updates in place. */
module Gameboard {
  import opened Types
  import opened Grids

  class GameBoard {
    var grid: array2<CaseType>
    var size: int

    /** The squares of grid as a value, row y first as in grid[y][x]. */
    ghost var cells: Grid

    /** The grid has size rows of size squares, and cells holds exactly what the grid holds. */
    ghost predicate Valid()
      reads this, grid
    {
      grid.Length0 == size && grid.Length1 == size &&
      |cells| == size && Square(cells) &&
      forall y, x :: 0 <= y < size && 0 <= x < size ==> cells[y][x] == grid[y, x]
    }

    /** initializeGameBoard: an n-by-n board of Water, filled row by row. */
    constructor Init(n: nat)
      ensures Valid() && fresh(grid)
      ensures size == n && cells == AllWater(n)
    {
      var g := new CaseType[n, n];
      var i := 0;
      while i < n
        invariant 0 <= i <= n
        invariant forall y, x :: 0 <= y < i && 0 <= x < n ==> g[y, x] == Water
      {
        var j := 0;
        while j < n
          invariant 0 <= j <= n
          invariant forall y, x :: 0 <= y < i && 0 <= x < n ==> g[y, x] == Water
          invariant forall x :: 0 <= x < j ==> g[i, x] == Water
        {
          g[i, j] := Water;
          j := j + 1;
        }
        i := i + 1;
      }
      grid := g;
      size := n;
      cells := AllWater(n);
    }
  }
}
