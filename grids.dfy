/** Reels and rows: the row view of a grid is its transpose. */
module Grids {
  import opened SlotTypes

  /**
   * The grids `flip_horizontal` can index: at least one reel, and no reel
   * shorter than the first (a longer reel is cut to the first reel's height).
   */
  predicate Flippable(grid: Grid)
  {
    |grid| > 0 && forall x :: 0 <= x < |grid| ==> |grid[x]| >= |grid[0]|
  }

  /** Every reel holds exactly `height` names. */
  predicate Rectangular(grid: Grid, height: nat)
  {
    forall x :: 0 <= x < |grid| ==> |grid[x]| == height
  }

  /** Row `y` lists the `y`-th visible name of every reel, in reel order. */
  function Transpose(grid: Grid): seq<seq<string>>
    requires Flippable(grid)
  {
    seq(|grid[0]|, y requires 0 <= y < |grid[0]| =>
      seq(|grid|, x requires 0 <= x < |grid| => grid[x][y]))
  }

  /** The rows of a rectangular grid of `R` reels and `C >= 1` rows are `C` rows of `R` names. */
  lemma {:induction false} TransposeShape(grid: Grid)
    requires Flippable(grid)
    ensures |Transpose(grid)| == |grid[0]|
    ensures Rectangular(Transpose(grid), |grid|)
    ensures forall y, x :: 0 <= y < |grid[0]| && 0 <= x < |grid| ==> Transpose(grid)[y][x] == grid[x][y]
  {
  }

  /** Turning reels into rows and rows back into reels gives back the grid. */
  lemma {:induction false} TransposeTwice(grid: Grid)
    requires |grid| > 0 && |grid[0]| > 0 && Rectangular(grid, |grid[0]|)
    ensures Flippable(Transpose(grid)) && Transpose(Transpose(grid)) == grid
  {
    var rows := Transpose(grid);
    assert Flippable(rows);
    var back := Transpose(rows);
    assert |back| == |grid|;
    forall x | 0 <= x < |grid| ensures back[x] == grid[x] {
      assert |back[x]| == |grid[x]|;
      forall y | 0 <= y < |grid[x]| ensures back[x][y] == grid[x][y] {
        assert back[x][y] == rows[y][x];
      }
    }
  }
}
