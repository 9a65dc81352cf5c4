/** The rules of shootAt, isAlreadyTargeted, isGameOver and the winner check, on board values. */
module Shots {
  import opened Types
  import opened Grids

  /** A square that has already received a shot. */
  predicate Targeted(c: CaseType) {
    c == WaterShot || c == Wreck
  }

  /** The new state of a square that is shot at: it is targeted afterwards, a square targeted
      before keeps its state, and it shows a wreck exactly when it held a boat. */
  function Fire(c: CaseType): (r: CaseType)
    ensures Targeted(r)
    ensures Targeted(c) ==> r == c
    ensures r == Wreck <==> (c == BoatPart || c == Wreck)
  {
    match c
    case Water => WaterShot
    case BoatPart => Wreck
    case WaterShot => WaterShot
    case Wreck => Wreck
  }

  /** A shot changes a square exactly when it has not been targeted yet, and the only changes are
      Water to WaterShot and BoatPart to Wreck; a shot square always ends up targeted. */
  lemma FireTransitions(c: CaseType)
    ensures Fire(c) == c <==> Targeted(c)
    ensures Fire(c) != c ==> (c == Water && Fire(c) == WaterShot) || (c == BoatPart && Fire(c) == Wreck)
    ensures Targeted(Fire(c)) && Fire(Fire(c)) == Fire(c)
  {
  }

  /** The board after shootAt(x, y): the square fired at if it is on the board, the board unchanged if not. */
  function Shoot(g: Grid, x: int, y: int): (r: Grid)
    requires Square(g)
    ensures Square(r) && |r| == |g|
    ensures InBounds(g, x, y) ==> Targeted(r[y][x])
    ensures forall px, py :: InBounds(g, px, py) && Targeted(g[py][px]) ==> r[py][px] == g[py][px]
  {
    if InBounds(g, x, y) then g[y := g[y][x := Fire(g[y][x])]] else g
  }

  /** The message shootAt prints, as a value. */
  function Outcome(g: Grid, x: int, y: int): (r: ShotOutcome)
    requires Square(g)
    ensures r == OutOfBounds <==> !InBounds(g, x, y)
    ensures r == Miss <==> InBounds(g, x, y) && g[y][x] == Water
    ensures r == Hit <==> InBounds(g, x, y) && g[y][x] == BoatPart
    ensures r == AlreadyTargeted <==> InBounds(g, x, y) && Targeted(g[y][x])
  {
    if !InBounds(g, x, y) then OutOfBounds
    else match g[y][x]
      case Water => Miss
      case BoatPart => Hit
      case WaterShot => AlreadyTargeted
      case Wreck => AlreadyTargeted
  }

  /** A shot changes at most the one square fired at, and keeps the board square. */
  lemma ShootFrame(g: Grid, x: int, y: int)
    requires Square(g)
    ensures Square(Shoot(g, x, y)) && |Shoot(g, x, y)| == |g|
    ensures forall px, py :: InBounds(g, px, py) && (px, py) != (x, y) ==> Shoot(g, x, y)[py][px] == g[py][px]
    ensures InBounds(g, x, y) ==> Shoot(g, x, y)[y][x] == Fire(g[y][x])
  {
  }

  /** A shot off the board, or at a square already targeted, leaves the whole board unchanged. */
  lemma ShootNoOp(g: Grid, x: int, y: int)
    requires Square(g)
    requires !InBounds(g, x, y) || Targeted(g[y][x])
    ensures Shoot(g, x, y) == g
  {
    if InBounds(g, x, y) {
      assert g[y][x := Fire(g[y][x])] == g[y];
    }
  }

  /** A square on the board counts as already targeted exactly when shooting it changes nothing. */
  lemma TargetedIffShotChangesNothing(g: Grid, x: int, y: int)
    requires Square(g) && InBounds(g, x, y)
    ensures Targeted(g[y][x]) <==> Shoot(g, x, y) == g
  {
    FireTransitions(g[y][x]);
    if Targeted(g[y][x]) {
      ShootNoOp(g, x, y);
    } else {
      assert Shoot(g, x, y)[y][x] != g[y][x];
    }
  }

  /** Shooting twice at the same square is the same as shooting once, and the second shot is reported
      as already targeted (or off the board). */
  lemma ShootIdempotent(g: Grid, x: int, y: int)
    requires Square(g)
    ensures Square(Shoot(g, x, y))
    ensures Shoot(Shoot(g, x, y), x, y) == Shoot(g, x, y)
    ensures Outcome(Shoot(g, x, y), x, y) == AlreadyTargeted || Outcome(g, x, y) == OutOfBounds
  {
    ShootFrame(g, x, y);
    if InBounds(g, x, y) {
      FireTransitions(g[y][x]);
    }
    ShootNoOp(Shoot(g, x, y), x, y);
  }

  /** The number of untargeted squares: those a shot would still change. */
  function Untargeted(g: Grid): nat {
    Count(g, Water) + Count(g, BoatPart)
  }

  /** A hit removes exactly one intact boat square, anything else removes none; a shot at an
      untargeted square removes exactly one untargeted square, anything else none. */
  lemma ShootCounts(g: Grid, x: int, y: int)
    requires Square(g)
    ensures Count(Shoot(g, x, y), BoatPart) == Count(g, BoatPart) - (if Outcome(g, x, y) == Hit then 1 else 0)
    ensures Untargeted(Shoot(g, x, y)) ==
      Untargeted(g) - (if Outcome(g, x, y) == Hit || Outcome(g, x, y) == Miss then 1 else 0)
  {
    if InBounds(g, x, y) {
      var v := Fire(g[y][x]);
      CountUpdate(g, y, x, v, BoatPart);
      CountUpdate(g, y, x, v, Water);
    }
  }

  /** What isGameOver decides: no intact boat square is left. */
  predicate NoBoatLeft(g: Grid) {
    forall y, x :: 0 <= y < |g| && 0 <= x < |g[y]| ==> g[y][x] != BoatPart
  }

  /** A board is over exactly when its count of intact boat squares is zero, and while it is not over
      some square is still untargeted, so a random search for one can succeed. */
  lemma NoBoatLeftCount(g: Grid)
    ensures NoBoatLeft(g) <==> Count(g, BoatPart) == 0
    ensures !NoBoatLeft(g) ==> Untargeted(g) > 0
  {
    CountZero(g, BoatPart);
  }

  /** Once a board has no intact boat square, no shot brings one back. */
  lemma GameOverIsStable(g: Grid, x: int, y: int)
    requires Square(g) && NoBoatLeft(g)
    ensures NoBoatLeft(Shoot(g, x, y))
  {
  }

  /** One pair of rand() values in computerTurn, before reduction modulo the board size. */
  datatype Aim = Aim(rx: nat, ry: nat)

  /** The square that an aim designates on g is not yet targeted. */
  predicate Open(g: Grid, a: Aim) {
    Square(g) && |g| > 0 && !Targeted(g[a.ry % |g|][a.rx % |g|])
  }

  /** The index of the first aim that designates an untargeted square, if any. */
  function FirstOpen(g: Grid, aims: seq<Aim>): (r: Option<nat>)
    ensures r.Some? ==> r.value < |aims| && Open(g, aims[r.value])
    ensures r.Some? ==> forall j :: 0 <= j < r.value ==> !Open(g, aims[j])
    ensures r.None? <==> forall j :: 0 <= j < |aims| ==> !Open(g, aims[j])
  {
    if |aims| == 0 then None
    else if Open(g, aims[0]) then Some(0)
    else match FirstOpen(g, aims[1..])
      case None => None
      case Some(k) => Some(k + 1)
  }

  /** The square an aim designates on a board of n > 0 squares a side is (x, y). */
  predicate Designates(n: int, a: Aim, x: int, y: int)
    requires n > 0
  {
    a.rx % n == x && a.ry % n == y
  }

  /** Some aim of the sequence designates (x, y). */
  predicate HasAim(n: int, aims: seq<Aim>, x: int, y: int)
    requires n > 0
  {
    exists j :: 0 <= j < |aims| && Designates(n, aims[j], x, y)
  }

  /** Every square of a board of n squares a side is designated by some aim: what a long enough run
      of uniform rand() values in computerTurn eventually does. */
  predicate Covers(n: int, aims: seq<Aim>) {
    n > 0 && forall x, y :: 0 <= x < n && 0 <= y < n ==> HasAim(n, aims, x, y)
  }

  /** While a board still has an intact boat square, aims that cover it include an open one, so
      computerTurn's search ends. */
  lemma CoversOpen(g: Grid, aims: seq<Aim>)
    requires Square(g) && Covers(|g|, aims) && !NoBoatLeft(g)
    ensures exists k :: 0 <= k < |aims| && Open(g, aims[k])
  {
    var y, x :| 0 <= y < |g| && 0 <= x < |g[y]| && g[y][x] == BoatPart;
    assert HasAim(|g|, aims, x, y);
    var j :| 0 <= j < |aims| && Designates(|g|, aims[j], x, y);
    assert Open(g, aims[j]);
  }

  /** A board of n squares a side has at most n * n untargeted squares. */
  lemma UntargetedBound(g: Grid)
    requires Square(g)
    ensures Untargeted(g) <= |g| * |g|
  {
    CountPair(g, Water, BoatPart, |g|);
  }

  /** More than 2 * n * n inputs outlast twice the untargeted squares of a board n squares a side. */
  lemma EnoughInputs(g: Grid, k: int)
    requires Square(g) && k > 2 * |g| * |g|
    ensures k > 2 * Untargeted(g)
  {
    UntargetedBound(g);
    assert 2 * |g| * |g| == 2 * (|g| * |g|);
  }

  /** The first open aim is determined by an open one and the closed ones before it. */
  lemma FirstOpenAt(g: Grid, aims: seq<Aim>, k: nat)
    requires k < |aims| && Open(g, aims[k])
    requires forall j :: 0 <= j < k ==> !Open(g, aims[j])
    ensures FirstOpen(g, aims) == Some(k)
  {
  }

  /** The winner check of the main loop: the player's own board is examined first. */
  function Verdict(p1: Grid, p2: Grid): (w: Option<Winner>)
    ensures w == Some(Computer) <==> NoBoatLeft(p1)
    ensures w == Some(Player) <==> !NoBoatLeft(p1) && NoBoatLeft(p2)
    ensures w == None <==> !NoBoatLeft(p1) && !NoBoatLeft(p2)
  {
    if NoBoatLeft(p1) then Some(Computer)
    else if NoBoatLeft(p2) then Some(Player)
    else None
  }
}
