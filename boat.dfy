/** A boat and the operations that put it on a board: createBoat, isBoatAlive, canPlaceBoat,
    setBoatOnBoard and placeRandomBoat. */
module Boats {
  import opened Types
  import opened Grids
  import opened Placement
  import opened Gameboard

  class Boat {
    var size: int
    var x: int
    var y: int
    var orientation: Orientation
    var hitCount: int

    /** createBoat: the geometry comes from the arguments; the hit count is left uninitialised,
        so it may hold any value. */
    constructor Create(size: int, x: int, y: int, orientation: Orientation)
      ensures this.size == size && this.x == x && this.y == y && this.orientation == orientation
    {
      this.size := size;
      this.x := x;
      this.y := y;
      this.orientation := orientation;
      this.hitCount := *;
    }
  }

  /** isBoatAlive: a missing boat is not alive; a boat is alive while it has taken fewer hits
      than its length. */
  function IsBoatAlive(b: Boat?): (alive: bool)
    reads b
    ensures b == null ==> !alive
    ensures b != null ==> (alive <==> b.hitCount < b.size)
  {
    b != null && b.hitCount < b.size
  }

  /** canPlaceBoat: checks the far edge, then each square of the boat and its eight neighbours,
      returning false at the first square that is not Water. */
  method CanPlaceBoat(board: GameBoard, boat: Boat) returns (ok: bool)
    requires board.Valid()
    requires 0 <= boat.x < board.size && 0 <= boat.y < board.size
    // The far-edge test alone refuses a boat that runs off the board; the next clause implies this
    // one, which is kept to state that refusal on its own.
    ensures !Fits(board.size, boat.size, boat.x, boat.y, boat.orientation) ==> !ok
    ensures ok == CanPlace(board.cells, boat.size, boat.x, boat.y, boat.orientation)
  {
    ghost var g := board.cells;
    var o := boat.orientation;
    if o == Horizontal {
      if boat.x + boat.size > board.size { return false; }
    } else {
      if boat.y + boat.size > board.size { return false; }
    }
    var i := 0;
    while i < boat.size
      invariant 0 <= i && (i == 0 || i <= boat.size)
      invariant forall k :: 0 <= k < i ==> ClearAround(g, CellX(boat.x, o, k), CellY(boat.y, o, k))
    {
      var cx := boat.x + (if o == Horizontal then i else 0);
      var cy := boat.y + (if o == Vertical then i else 0);
      assert cx == CellX(boat.x, o, i) && cy == CellY(boat.y, o, i);
      if board.grid[cy, cx] != Water {
        assert !NeighbourWater(g, cx, cy, 0, 0);
        return false;
      }
      var dx := -1;
      while dx <= 1
        invariant -1 <= dx <= 2
        invariant forall ex, ey :: -1 <= ex < dx && -1 <= ey <= 1 ==> NeighbourWater(g, cx, cy, ex, ey)
      {
        var dy := -1;
        while dy <= 1
          invariant -1 <= dy <= 2
          invariant forall ex, ey :: -1 <= ex < dx && -1 <= ey <= 1 ==> NeighbourWater(g, cx, cy, ex, ey)
          invariant forall ey :: -1 <= ey < dy ==> NeighbourWater(g, cx, cy, dx, ey)
        {
          var nx, ny := cx + dx, cy + dy;
          if nx >= 0 && nx < board.size && ny >= 0 && ny < board.size {
            if board.grid[ny, nx] != Water {
              assert !NeighbourWater(g, cx, cy, dx, dy);
              return false;
            }
          }
          dy := dy + 1;
        }
        dx := dx + 1;
      }
      i := i + 1;
    }
    return true;
  }

  /** setBoatOnBoard: writes BoatPart into the boat's squares one after the other. */
  method SetBoatOnBoard(board: GameBoard, boat: Boat)
    requires board.Valid()
    requires 0 <= boat.x < board.size && 0 <= boat.y < board.size
    requires Fits(board.size, boat.size, boat.x, boat.y, boat.orientation)
    modifies board`cells, board.grid
    ensures board.Valid()
    ensures board.cells == PlaceBoat(old(board.cells), boat.size, boat.x, boat.y, boat.orientation)
  {
    ghost var g := board.cells;
    var o := boat.orientation;
    var i := 0;
    while i < boat.size
      invariant 0 <= i && (i == 0 || i <= boat.size)
      invariant forall py, px :: 0 <= py < board.size && 0 <= px < board.size ==>
        board.grid[py, px] == if Occupies(i, boat.x, boat.y, o, px, py) then BoatPart else g[py][px]
    {
      var cx := boat.x + (if o == Horizontal then i else 0);
      var cy := boat.y + (if o == Vertical then i else 0);
      board.grid[cy, cx] := BoatPart;
      i := i + 1;
    }
    board.cells := PlaceBoat(g, boat.size, boat.x, boat.y, o);
  }

  /** placeRandomBoat: a missing board or boat is refused at once; otherwise DrawPlacement does the
      drawing. */
  method PlaceRandomBoat(board: GameBoard?, boat: Boat?, draws: seq<Draw>) returns (ok: bool)
    requires board != null ==> board.Valid() && board.size > 0
    requires |draws| >= MaxTries
    modifies if board == null then {} else {board, board.grid}, boat
    ensures board != null ==> board.Valid() && board.grid == old(board.grid) && board.size == old(board.size)
    ensures board == null || boat == null ==> !ok
    ensures board != null && boat == null ==> unchanged(board, board.grid)
    ensures board == null && boat != null ==> unchanged(boat)
    ensures board != null && boat != null ==>
      boat.size == old(boat.size) && boat.hitCount == old(boat.hitCount)
    ensures board != null && boat != null ==>
      RandomShip(old(board.cells), boat.size, draws) ==
        if ok then Some(Ship(boat.size, boat.x, boat.y, boat.orientation)) else None
    ensures board != null && boat != null && !ok ==>
      var d := draws[MaxTries - 1];
      boat.x == d.rx % board.size && boat.y == d.ry % board.size && boat.orientation == DrawOrientation(d.ro)
    ensures board != null && boat != null ==>
      board.cells == RandomPlacement(old(board.cells), boat.size, draws)
  {
    if board == null || boat == null { return false; }
    ghost var g := board.cells;
    ok := DrawPlacement(board, boat, draws);
    if ok {
      RandomShipPicked(g, boat.size, draws, FirstLegal(g, boat.size, draws[..MaxTries]).value);
    }
  }

  /** The loop of placeRandomBoat: up to MaxTries candidates are drawn into the boat's anchor and
      orientation; the first one that canPlaceBoat accepts is placed and the result is true. When none
      is accepted the board is untouched, the boat keeps the last candidate and the result is false. */
  method DrawPlacement(board: GameBoard, boat: Boat, draws: seq<Draw>) returns (ok: bool)
    requires board.Valid() && board.size > 0
    requires |draws| >= MaxTries
    modifies board`cells, board.grid, boat
    ensures board.Valid()
    ensures boat.size == old(boat.size) && boat.hitCount == old(boat.hitCount)
    ensures ok == FirstLegal(old(board.cells), boat.size, draws[..MaxTries]).Some?
    ensures var d := draws[if ok then FirstLegal(old(board.cells), boat.size, draws[..MaxTries]).value else MaxTries - 1];
      boat.x == d.rx % board.size && boat.y == d.ry % board.size && boat.orientation == DrawOrientation(d.ro)
    ensures board.cells == if ok then PlaceBoat(old(board.cells), boat.size, boat.x, boat.y, boat.orientation)
                           else old(board.cells)
  {
    ghost var g := board.cells;
    var tries := 0;
    while tries < MaxTries
      invariant 0 <= tries <= MaxTries
      invariant board.Valid() && board.cells == g
      invariant boat.size == old(boat.size) && boat.hitCount == old(boat.hitCount)
      invariant forall j :: 0 <= j < tries ==> !LegalDraw(g, boat.size, draws[j])
      invariant tries > 0 ==> var d := draws[tries - 1];
        boat.x == d.rx % board.size && boat.y == d.ry % board.size && boat.orientation == DrawOrientation(d.ro)
    {
      var d := draws[tries];
      boat.x := d.rx % board.size;
      boat.y := d.ry % board.size;
      boat.orientation := DrawOrientation(d.ro);
      var placed := CanPlaceBoat(board, boat);
      assert placed == LegalDraw(g, boat.size, d);
      if placed {
        SetBoatOnBoard(board, boat);
        FirstLegalAt(g, boat.size, draws[..MaxTries], tries);
        return true;
      }
      tries := tries + 1;
    }
    return false;
  }
}
