/** The value of a board: rows of squares, indexed g[y][x] as the C code indexes grid[y][x]. */
module Grids {
  import opened Types

  type Grid = seq<seq<CaseType>>

  /** A size-by-size board, where the size is the number of rows. */
  predicate Square(g: Grid) {
    forall y :: 0 <= y < |g| ==> |g[y]| == |g|
  }

  predicate InBounds(g: Grid, x: int, y: int) {
    0 <= x < |g| && 0 <= y < |g|
  }

  /** The board that initializeGameBoard produces: n rows of n Water squares. */
  function AllWater(n: nat): (g: Grid)
    ensures |g| == n && Square(g)
    ensures forall y, x :: 0 <= y < n && 0 <= x < n ==> g[y][x] == Water
  {
    seq(n, _ => seq(n, _ => Water))
  }

  /** How many squares of one row are in state c. */
  function RowCount(s: seq<CaseType>, c: CaseType): nat {
    if |s| == 0 then 0 else (if s[0] == c then 1 else 0) + RowCount(s[1..], c)
  }

  /** How many squares of the board are in state c. */
  function Count(g: Grid, c: CaseType): nat {
    if |g| == 0 then 0 else RowCount(g[0], c) + Count(g[1..], c)
  }

  lemma {:induction false} RowCountZero(s: seq<CaseType>, c: CaseType)
    ensures RowCount(s, c) == 0 <==> forall x :: 0 <= x < |s| ==> s[x] != c
  {
    if |s| > 0 {
      RowCountZero(s[1..], c);
      assert forall x :: 1 <= x < |s| ==> s[x] == s[1..][x - 1];
    }
  }

  /** No square of the board holds c exactly when its count is zero. */
  lemma {:induction false} CountZero(g: Grid, c: CaseType)
    ensures Count(g, c) == 0 <==> forall y, x :: 0 <= y < |g| && 0 <= x < |g[y]| ==> g[y][x] != c
  {
    if |g| > 0 {
      RowCountZero(g[0], c);
      CountZero(g[1..], c);
      assert forall y :: 1 <= y < |g| ==> g[y] == g[1..][y - 1];
    }
  }

  lemma {:induction false} RowCountUpdate(s: seq<CaseType>, x: int, v: CaseType, c: CaseType)
    requires 0 <= x < |s|
    ensures RowCount(s[x := v], c) == RowCount(s, c) - (if s[x] == c then 1 else 0) + (if v == c then 1 else 0)
  {
    if x > 0 {
      assert s[x := v][1..] == s[1..][x - 1 := v];
      RowCountUpdate(s[1..], x - 1, v, c);
    } else {
      assert s[x := v][1..] == s[1..];
    }
  }

  /** Replacing one square by v trades one square in its old state for one in state v. */
  lemma {:induction false} CountUpdate(g: Grid, y: int, x: int, v: CaseType, c: CaseType)
    requires 0 <= y < |g| && 0 <= x < |g[y]|
    ensures Count(g[y := g[y][x := v]], c) == Count(g, c) - (if g[y][x] == c then 1 else 0) + (if v == c then 1 else 0)
  {
    var h := g[y := g[y][x := v]];
    if y == 0 {
      assert h[1..] == g[1..];
      RowCountUpdate(g[0], x, v, c);
    } else {
      assert h[1..] == g[1..][y - 1 := g[1..][y - 1][x := v]];
      CountUpdate(g[1..], y - 1, x, v, c);
    }
  }

  /** Two different states together fill at most the whole row. */
  lemma {:induction false} RowCountPair(s: seq<CaseType>, c: CaseType, d: CaseType)
    requires c != d
    ensures RowCount(s, c) + RowCount(s, d) <= |s|
  {
    if |s| > 0 {
      RowCountPair(s[1..], c, d);
    }
  }

  /** Two different states together fill at most the whole board of rows of length n. */
  lemma {:induction false} CountPair(g: Grid, c: CaseType, d: CaseType, n: int)
    requires c != d
    requires forall y :: 0 <= y < |g| ==> |g[y]| == n
    ensures Count(g, c) + Count(g, d) <= |g| * n
  {
    if |g| > 0 {
      RowCountPair(g[0], c, d);
      assert forall y :: 0 <= y < |g| - 1 ==> g[1..][y] == g[y + 1];
      CountPair(g[1..], c, d, n);
      assert (|g| - 1) * n + n == |g| * n;
    }
  }
}
