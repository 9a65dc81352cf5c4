/** The fleets that initializeGame places: one random placement per boat, one boat after another. */
module Fleets {
  import opened Types
  import opened Grids
  import opened Placement

  /** One size and one sequence of candidates for each boat. */
  predicate FleetInputs(sizes: seq<int>, draws: seq<seq<Draw>>) {
    |sizes| == |draws| && forall k :: 0 <= k < |draws| ==> |draws[k]| >= MaxTries
  }

  /** The board after placeRandomBoat has been called for each boat in turn. */
  function FleetGrid(g: Grid, sizes: seq<int>, draws: seq<seq<Draw>>): (r: Grid)
    requires Square(g) && |g| > 0 && FleetInputs(sizes, draws)
    ensures Square(r) && |r| == |g|
    ensures forall px, py :: InBounds(g, px, py) ==>
      r[py][px] == g[py][px] || (g[py][px] == Water && r[py][px] == BoatPart)
    decreases |sizes|
  {
    if |sizes| == 0 then g
    else
      var m := |sizes| - 1;
      RandomPlacement(FleetGrid(g, sizes[..m], draws[..m]), sizes[m], draws[m])
  }

  /** The boats that found a place, in the order they were placed. */
  function FleetShips(g: Grid, sizes: seq<int>, draws: seq<seq<Draw>>): seq<Ship>
    requires Square(g) && |g| > 0 && FleetInputs(sizes, draws)
    decreases |sizes|
  {
    if |sizes| == 0 then []
    else
      var m := |sizes| - 1;
      var before := FleetShips(g, sizes[..m], draws[..m]);
      match RandomShip(FleetGrid(g, sizes[..m], draws[..m]), sizes[m], draws[m])
      case None => before
      case Some(s) => before + [s]
  }

  /** The square (px, py) lies under one of the ships. */
  predicate OnFleet(ships: seq<Ship>, px: int, py: int) {
    exists k :: 0 <= k < |ships| && Occupies(ships[k].size, ships[k].x, ships[k].y, ships[k].o, px, py)
  }

  /** The two squares are neither equal nor neighbours, diagonals included. */
  predicate Far(xa: int, ya: int, xb: int, yb: int) {
    xa - xb > 1 || xb - xa > 1 || ya - yb > 1 || yb - ya > 1
  }

  /** No square of one ship equals or touches a square of the other. */
  predicate Apart(s: Ship, t: Ship) {
    forall i, j :: 0 <= i < s.size && 0 <= j < t.size ==>
      Far(CellX(s.x, s.o, i), CellY(s.y, s.o, i), CellX(t.x, t.o, j), CellY(t.y, t.o, j))
  }

  /** The ship lies wholly on a board of n squares a side. */
  predicate OnBoard(n: int, s: Ship) {
    0 <= s.x < n && 0 <= s.y < n && Fits(n, s.size, s.x, s.y, s.o)
  }

  /** g is g0 with BoatPart laid exactly on the squares of the ships. */
  ghost predicate Laid(g0: Grid, g: Grid, ships: seq<Ship>) {
    |g| == |g0| && Square(g) && Square(g0) &&
    forall px, py :: InBounds(g0, px, py) ==>
      g[py][px] == if OnFleet(ships, px, py) then BoatPart else g0[py][px]
  }

  /** Every ship lies on a board of n squares a side, and no two ships touch. */
  predicate Spread(n: int, ships: seq<Ship>) {
    (forall k :: 0 <= k < |ships| ==> OnBoard(n, ships[k])) &&
    (forall k, l :: 0 <= k < l < |ships| ==> Apart(ships[k], ships[l]))
  }

  /** A boat the no-touch rule accepts is apart from every boat already laid on the board. */
  lemma AcceptedIsApart(g0: Grid, g: Grid, ships: seq<Ship>, s: Ship, k: nat)
    requires Square(g0) && Laid(g0, g, ships) && Spread(|g0|, ships) && k < |ships|
    requires CanPlace(g, s.size, s.x, s.y, s.o)
    ensures Apart(ships[k], s)
  {
    var t := ships[k];
    forall i, j | 0 <= i < t.size && 0 <= j < s.size
      ensures Far(CellX(t.x, t.o, i), CellY(t.y, t.o, i), CellX(s.x, s.o, j), CellY(s.y, s.o, j))
    {
      var qx, qy := CellX(t.x, t.o, i), CellY(t.y, t.o, i);
      var cx, cy := CellX(s.x, s.o, j), CellY(s.y, s.o, j);
      assert OnBoard(|g0|, t);
      assert Occupies(t.size, t.x, t.y, t.o, qx, qy);
      assert OnFleet(ships, qx, qy);
      assert g[qy][qx] == BoatPart;
      assert ClearAround(g, cx, cy);
      assert !Far(qx, qy, cx, cy) ==> !NeighbourWater(g, cx, cy, qx - cx, qy - cy);
    }
  }

  /** Placing an accepted boat lays it beside the earlier ones without touching them. */
  lemma PlaceAccepted(g0: Grid, g: Grid, ships: seq<Ship>, s: Ship)
    requires Square(g0) && Laid(g0, g, ships) && Spread(|g0|, ships)
    requires CanPlace(g, s.size, s.x, s.y, s.o) && 0 <= s.x < |g| && 0 <= s.y < |g|
    ensures Spread(|g0|, ships + [s])
    ensures Laid(g0, PlaceBoat(g, s.size, s.x, s.y, s.o), ships + [s])
  {
    var all := ships + [s];
    forall k | 0 <= k < |ships| ensures Apart(ships[k], s) {
      AcceptedIsApart(g0, g, ships, s, k);
    }
    PlaceBoatExact(g, s.size, s.x, s.y, s.o);
    forall px, py | InBounds(g0, px, py)
      ensures PlaceBoat(g, s.size, s.x, s.y, s.o)[py][px] == if OnFleet(all, px, py) then BoatPart else g0[py][px]
    {
      if OnFleet(ships, px, py) {
        var k :| 0 <= k < |ships| && Occupies(ships[k].size, ships[k].x, ships[k].y, ships[k].o, px, py);
        assert all[k] == ships[k];
      }
      if Occupies(s.size, s.x, s.y, s.o, px, py) {
        assert all[|ships|] == s;
      }
      if OnFleet(all, px, py) {
        var k :| 0 <= k < |all| && Occupies(all[k].size, all[k].x, all[k].y, all[k].o, px, py);
        if k < |ships| { assert ships[k] == all[k]; }
      }
    }
  }

  /** Ships never touch, even diagonally: every ship of a fleet lies on the board, no two ships touch,
      and the board holds BoatPart exactly on the ships and its earlier squares everywhere else. */
  lemma {:induction false} FleetNeverTouches(g: Grid, sizes: seq<int>, draws: seq<seq<Draw>>)
    requires Square(g) && |g| > 0 && FleetInputs(sizes, draws)
    ensures Spread(|g|, FleetShips(g, sizes, draws))
    ensures Laid(g, FleetGrid(g, sizes, draws), FleetShips(g, sizes, draws))
    decreases |sizes|
  {
    if |sizes| > 0 {
      var m := |sizes| - 1;
      var gp, sp := FleetGrid(g, sizes[..m], draws[..m]), FleetShips(g, sizes[..m], draws[..m]);
      FleetNeverTouches(g, sizes[..m], draws[..m]);
      match RandomShip(gp, sizes[m], draws[m])
      case None =>
      case Some(s) => PlaceAccepted(g, gp, sp, s);
    }
    else {
      assert forall px, py :: !OnFleet([], px, py);
    }
  }

  /** A fleet placed on an empty board leaves it with no targeted square: every square is BoatPart
      on a ship and Water elsewhere. */
  lemma FleetOnEmptyBoard(n: nat, sizes: seq<int>, draws: seq<seq<Draw>>)
    requires n > 0 && FleetInputs(sizes, draws)
    ensures Spread(n, FleetShips(AllWater(n), sizes, draws))
    ensures forall px, py :: 0 <= px < n && 0 <= py < n ==>
      FleetGrid(AllWater(n), sizes, draws)[py][px] ==
        if OnFleet(FleetShips(AllWater(n), sizes, draws), px, py) then BoatPart else Water
  {
    FleetNeverTouches(AllWater(n), sizes, draws);
  }
}
