/** The symbol each square shows in printPlayerView and printComputerView, without the printing. */
module Views {
  import opened Types
  import opened Grids
  import opened Shots

  /** The owner's view shows every state. */
  function PlayerSymbol(c: CaseType): (s: string)
    ensures |s| == 1
    ensures s == "o" || s == "X" <==> Targeted(c)
    ensures s == "B" || s == "X" <==> c == BoatPart || c == Wreck
    ensures s == "~" <==> c == Water
  {
    match c
    case Water => "~"
    case WaterShot => "o"
    case BoatPart => "B"
    case Wreck => "X"
  }

  /** The opponent's view shows shots only: an intact boat square looks like untouched water. */
  function ComputerSymbol(c: CaseType): (s: string)
    ensures |s| == 1
    ensures s == "~" <==> !Targeted(c)
    ensures Targeted(c) ==> s == PlayerSymbol(c)
  {
    match c
    case WaterShot => "o"
    case Wreck => "X"
    case Water => "~"
    case BoatPart => "~"
  }

  /** The owner's view tells the four states apart. */
  lemma PlayerSymbolsDistinct(c: CaseType, d: CaseType)
    ensures PlayerSymbol(c) == PlayerSymbol(d) <==> c == d
  {
  }

  /** What the opponent learns about a square: BoatPart is hidden as Water. */
  function Hidden(c: CaseType): CaseType {
    if c == BoatPart then Water else c
  }

  /** Two squares look alike to the opponent exactly when they differ at most by a hidden boat,
      and a targeted square looks the same in both views. */
  lemma ComputerSymbolsFog(c: CaseType, d: CaseType)
    ensures ComputerSymbol(c) == ComputerSymbol(d) <==> Hidden(c) == Hidden(d)
    ensures Targeted(c) ==> ComputerSymbol(c) == PlayerSymbol(c)
    ensures ComputerSymbol(c) == "~" <==> !Targeted(c)
  {
  }

  /** The symbols of the whole board, row by row, in the owner's view. */
  function PlayerView(g: Grid): (v: seq<seq<string>>)
    ensures |v| == |g| && forall y :: 0 <= y < |g| ==> |v[y]| == |g[y]|
    ensures forall y, x :: 0 <= y < |g| && 0 <= x < |g[y]| ==> (v[y][x] == "B" <==> g[y][x] == BoatPart)
  {
    seq(|g|, y requires 0 <= y < |g| => seq(|g[y]|, x requires 0 <= x < |g[y]| => PlayerSymbol(g[y][x])))
  }

  /** The symbols of the whole board, row by row, in the opponent's view. */
  function ComputerView(g: Grid): (v: seq<seq<string>>)
    ensures |v| == |g| && forall y :: 0 <= y < |g| ==> |v[y]| == |g[y]|
    ensures forall y, x :: 0 <= y < |g| && 0 <= x < |g[y]| ==> (v[y][x] == "~" <==> !Targeted(g[y][x]))
    ensures forall y, x :: 0 <= y < |g| && 0 <= x < |g[y]| ==> v[y][x] != "B"
  {
    seq(|g|, y requires 0 <= y < |g| => seq(|g[y]|, x requires 0 <= x < |g[y]| => ComputerSymbol(g[y][x])))
  }

  /** The board with every intact boat square replaced by Water. */
  function HideBoats(g: Grid): Grid {
    seq(|g|, y requires 0 <= y < |g| => seq(|g[y]|, x requires 0 <= x < |g[y]| => Hidden(g[y][x])))
  }

  /** Fog of war: the opponent's view of a board is the same as that of the board with no intact
      boats at all, so it never reveals where an unhit boat lies. */
  lemma FogOfWar(g: Grid)
    ensures ComputerView(g) == ComputerView(HideBoats(g))
  {
    var h := HideBoats(g);
    forall y | 0 <= y < |g|
      ensures ComputerView(g)[y] == ComputerView(h)[y]
    {
      forall x | 0 <= x < |g[y]|
        ensures ComputerView(g)[y][x] == ComputerView(h)[y][x]
      {
        ComputerSymbolsFog(g[y][x], h[y][x]);
      }
    }
  }

  /** Two boards that differ only in where their intact boats are look the same to the opponent. */
  lemma FogHidesPlacement(g: Grid, h: Grid)
    requires HideBoats(g) == HideBoats(h)
    ensures ComputerView(g) == ComputerView(h)
  {
    FogOfWar(g);
    FogOfWar(h);
  }

  /** The owner's view determines the board: different boards always look different to their owner. */
  lemma PlayerViewFaithful(g: Grid, h: Grid)
    requires PlayerView(g) == PlayerView(h)
    ensures g == h
  {
    assert |g| == |PlayerView(g)| == |PlayerView(h)| == |h|;
    forall y | 0 <= y < |g|
      ensures g[y] == h[y]
    {
      assert |g[y]| == |PlayerView(g)[y]| == |PlayerView(h)[y]| == |h[y]|;
      forall x | 0 <= x < |g[y]|
        ensures g[y][x] == h[y][x]
      {
        assert PlayerView(g)[y][x] == PlayerView(h)[y][x];
        PlayerSymbolsDistinct(g[y][x], h[y][x]);
      }
    }
  }
}
