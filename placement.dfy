/** The placement rules of canPlaceBoat and setBoatOnBoard, stated on board values. */
module Placement {
  import opened Types
  import opened Grids

  /** Column of the i-th square of a boat anchored at column x. */
  function CellX(x: int, o: Orientation, i: int): int {
    x + (if o == Horizontal then i else 0)
  }

  /** Row of the i-th square of a boat anchored at row y. */
  function CellY(y: int, o: Orientation, i: int): int {
    y + (if o == Vertical then i else 0)
  }

  /** The squares a boat covers, in closed form: a run of size squares from the anchor. */
  predicate Occupies(size: int, x: int, y: int, o: Orientation, px: int, py: int) {
    match o
    case Horizontal => py == y && x <= px < x + size
    case Vertical => px == x && y <= py < y + size
  }

  /** The squares setBoatOnBoard writes, in the order it writes them. */
  function Footprint(size: int, x: int, y: int, o: Orientation): seq<(int, int)> {
    if size <= 0 then [] else seq(size, i => (CellX(x, o, i), CellY(y, o, i)))
  }

  /** The footprint lists size distinct squares, and they are exactly the squares the boat covers. */
  lemma FootprintIsOccupied(size: int, x: int, y: int, o: Orientation)
    ensures |Footprint(size, x, y, o)| == if size <= 0 then 0 else size
    ensures forall i, j :: 0 <= i < j < |Footprint(size, x, y, o)| ==>
      Footprint(size, x, y, o)[i] != Footprint(size, x, y, o)[j]
    ensures forall px, py :: (px, py) in Footprint(size, x, y, o) <==> Occupies(size, x, y, o, px, py)
  {
    var f := Footprint(size, x, y, o);
    forall px, py | Occupies(size, x, y, o, px, py)
      ensures (px, py) in f
    {
      var i := if o == Horizontal then px - x else py - y;
      assert f[i] == (px, py);
    }
  }

  /** The first test of canPlaceBoat: the boat does not run past the far edge in its direction. */
  predicate Fits(n: int, size: int, x: int, y: int, o: Orientation) {
    if o == Horizontal then x + size <= n else y + size <= n
  }

  /** The neighbour (cx + dx, cy + dy) is off the board or Water. */
  predicate NeighbourWater(g: Grid, cx: int, cy: int, dx: int, dy: int)
    requires Square(g)
  {
    InBounds(g, cx + dx, cy + dy) ==> g[cy + dy][cx + dx] == Water
  }

  /** The square (cx, cy) and its eight neighbours, where they are on the board, are all Water. */
  predicate ClearAround(g: Grid, cx: int, cy: int)
    requires Square(g)
  {
    forall dx, dy :: -1 <= dx <= 1 && -1 <= dy <= 1 ==> NeighbourWater(g, cx, cy, dx, dy)
  }

  /** What canPlaceBoat decides: the boat fits, and every square of it has Water all around. */
  predicate CanPlace(g: Grid, size: int, x: int, y: int, o: Orientation)
    requires Square(g)
  {
    Fits(|g|, size, x, y, o) &&
    forall i :: 0 <= i < size ==> ClearAround(g, CellX(x, o, i), CellY(y, o, i))
  }

  /** The squares at most one step (diagonals included) from a square of the boat. */
  predicate Halo(size: int, x: int, y: int, o: Orientation, px: int, py: int) {
    size >= 1 &&
    match o
    case Horizontal => y - 1 <= py <= y + 1 && x - 1 <= px <= x + size
    case Vertical => x - 1 <= px <= x + 1 && y - 1 <= py <= y + size
  }

  /** Ships never touch, even diagonally: a placement is accepted exactly when it fits and every
      square of the board that touches the boat, or lies under it, is Water. */
  lemma NoTouch(g: Grid, size: int, x: int, y: int, o: Orientation)
    requires Square(g)
    ensures CanPlace(g, size, x, y, o) <==>
      Fits(|g|, size, x, y, o) &&
      forall px, py :: InBounds(g, px, py) && Halo(size, x, y, o, px, py) ==> g[py][px] == Water
  {
    if CanPlace(g, size, x, y, o) {
      forall px, py | InBounds(g, px, py) && Halo(size, x, y, o, px, py)
        ensures g[py][px] == Water
      {
        var along := if o == Horizontal then px - x else py - y;
        var i := if along < 0 then 0 else if along >= size then size - 1 else along;
        var dx, dy := px - CellX(x, o, i), py - CellY(y, o, i);
        assert ClearAround(g, CellX(x, o, i), CellY(y, o, i));
        assert NeighbourWater(g, CellX(x, o, i), CellY(y, o, i), dx, dy);
      }
    }
    if Fits(|g|, size, x, y, o) &&
       forall px, py :: InBounds(g, px, py) && Halo(size, x, y, o, px, py) ==> g[py][px] == Water
    {
      forall i | 0 <= i < size
        ensures ClearAround(g, CellX(x, o, i), CellY(y, o, i))
      {
        forall dx, dy | -1 <= dx <= 1 && -1 <= dy <= 1
          ensures NeighbourWater(g, CellX(x, o, i), CellY(y, o, i), dx, dy)
        {
          assert Halo(size, x, y, o, CellX(x, o, i) + dx, CellY(y, o, i) + dy);
        }
      }
    }
  }

  /** On an all-Water board the only reason to refuse a boat is that it runs off the edge. */
  lemma EmptyBoardAcceptsWhatFits(n: nat, size: int, x: int, y: int, o: Orientation)
    ensures CanPlace(AllWater(n), size, x, y, o) <==> Fits(n, size, x, y, o)
  {
  }

  /** What setBoatOnBoard leaves on the board: BoatPart on the boat's squares, the rest unchanged. */
  function PlaceBoat(g: Grid, size: int, x: int, y: int, o: Orientation): (r: Grid)
    ensures |r| == |g| && (Square(g) ==> Square(r))
  {
    seq(|g|, py requires 0 <= py < |g| =>
      seq(|g[py]|, px requires 0 <= px < |g[py]| =>
        if Occupies(size, x, y, o, px, py) then BoatPart else g[py][px]))
  }

  /** Placing a boat that fits writes BoatPart into exactly its size squares along its orientation,
      all on the board, and leaves every other square as it was. */
  lemma PlaceBoatExact(g: Grid, size: int, x: int, y: int, o: Orientation)
    requires Square(g) && 0 <= x < |g| && 0 <= y < |g| && Fits(|g|, size, x, y, o)
    ensures Square(PlaceBoat(g, size, x, y, o)) && |PlaceBoat(g, size, x, y, o)| == |g|
    ensures forall i :: 0 <= i < size ==>
      InBounds(g, CellX(x, o, i), CellY(y, o, i)) &&
      PlaceBoat(g, size, x, y, o)[CellY(y, o, i)][CellX(x, o, i)] == BoatPart
    ensures forall px, py :: InBounds(g, px, py) && (px, py) !in Footprint(size, x, y, o) ==>
      PlaceBoat(g, size, x, y, o)[py][px] == g[py][px]
  {
    FootprintIsOccupied(size, x, y, o);
  }

  /** After an accepted placement, the only squares that change are Water squares that become BoatPart,
      so no shot already fired and no boat already placed is disturbed. */
  lemma PlaceOnlyOverWater(g: Grid, size: int, x: int, y: int, o: Orientation)
    requires Square(g) && CanPlace(g, size, x, y, o)
    ensures forall px, py :: InBounds(g, px, py) ==>
      PlaceBoat(g, size, x, y, o)[py][px] == g[py][px] ||
      (g[py][px] == Water && PlaceBoat(g, size, x, y, o)[py][px] == BoatPart)
  {
    NoTouch(g, size, x, y, o);
    forall px, py | InBounds(g, px, py) && Occupies(size, x, y, o, px, py)
      ensures g[py][px] == Water
    {
      assert Halo(size, x, y, o, px, py);
    }
  }

  /** The number of candidates placeRandomBoat draws before giving up. */
  const MaxTries: nat := 100

  /** One call of rand() % size, rand() % size, rand() % 2 in placeRandomBoat, as the raw values. */
  datatype Draw = Draw(rx: nat, ry: nat, ro: nat)

  function DrawOrientation(ro: nat): Orientation {
    if ro % 2 == 0 then Horizontal else Vertical
  }

  /** The candidate drawn is accepted on the board g. */
  predicate LegalDraw(g: Grid, size: int, d: Draw) {
    Square(g) && |g| > 0 &&
    CanPlace(g, size, d.rx % |g|, d.ry % |g|, DrawOrientation(d.ro))
  }

  /** The index of the first accepted candidate, if any. */
  function FirstLegal(g: Grid, size: int, draws: seq<Draw>): (r: Option<nat>)
    ensures r.Some? ==> r.value < |draws| && LegalDraw(g, size, draws[r.value])
    ensures r.Some? ==> forall j :: 0 <= j < r.value ==> !LegalDraw(g, size, draws[j])
    ensures r.None? <==> forall j :: 0 <= j < |draws| ==> !LegalDraw(g, size, draws[j])
  {
    if |draws| == 0 then None
    else if LegalDraw(g, size, draws[0]) then Some(0)
    else match FirstLegal(g, size, draws[1..])
      case None => None
      case Some(k) => Some(k + 1)
  }

  /** The first accepted candidate is determined by the accepted one and the refused ones before it. */
  lemma FirstLegalAt(g: Grid, size: int, draws: seq<Draw>, k: nat)
    requires k < |draws| && LegalDraw(g, size, draws[k])
    requires forall j :: 0 <= j < k ==> !LegalDraw(g, size, draws[j])
    ensures FirstLegal(g, size, draws) == Some(k)
  {
  }

  /** The geometry of one boat on the board. */
  datatype Ship = Ship(size: int, x: int, y: int, o: Orientation)

  /** The boat that a candidate describes on a board of n > 0 squares a side. */
  function DrawnShip(n: int, size: int, d: Draw): Ship
    requires n > 0
  {
    Ship(size, d.rx % n, d.ry % n, DrawOrientation(d.ro))
  }

  /** The boat placeRandomBoat puts on the board, if one of the first MaxTries candidates is accepted. */
  function RandomShip(g: Grid, size: int, draws: seq<Draw>): (r: Option<Ship>)
    requires Square(g) && |g| > 0 && |draws| >= MaxTries
    ensures r.Some? ==> r.value.size == size && CanPlace(g, size, r.value.x, r.value.y, r.value.o)
    ensures r.Some? ==> 0 <= r.value.x < |g| && 0 <= r.value.y < |g|
    ensures r.None? <==> forall j :: 0 <= j < MaxTries ==> !LegalDraw(g, size, draws[j])
  {
    match FirstLegal(g, size, draws[..MaxTries])
    case None => None
    case Some(k) => Some(DrawnShip(|g|, size, draws[k]))
  }

  /** placeRandomBoat's boat is the candidate that FirstLegal picks. */
  lemma RandomShipPicked(g: Grid, size: int, draws: seq<Draw>, k: nat)
    requires Square(g) && |g| > 0 && |draws| >= MaxTries
    requires FirstLegal(g, size, draws[..MaxTries]) == Some(k)
    ensures RandomShip(g, size, draws) == Some(DrawnShip(|g|, size, draws[k]))
  {
  }

  /** The board after placeRandomBoat. */
  function RandomPlacement(g: Grid, size: int, draws: seq<Draw>): (r: Grid)
    requires Square(g) && |g| > 0 && |draws| >= MaxTries
    ensures Square(r) && |r| == |g|
    ensures forall px, py :: InBounds(g, px, py) ==>
      r[py][px] == g[py][px] || (g[py][px] == Water && r[py][px] == BoatPart)
  {
    match RandomShip(g, size, draws)
    case None => g
    case Some(s) =>
      PlaceOnlyOverWater(g, s.size, s.x, s.y, s.o);
      PlaceBoat(g, s.size, s.x, s.y, s.o)
  }
}
