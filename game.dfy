/** The turn logic of the game: shootAt, isAlreadyTargeted, computerTurn, isGameOver and one round
    of the main loop, over the two boards of a game. */
module Game {
  import opened Types
  import opened Grids
  import opened Shots
  import opened Placement
  import opened Fleets
  import opened Gameboard
  import opened Boats

  /** BOARD_SIZE and MAX_BOATS: each side has a 10 by 10 board and five boats. */
  const BoardSize: nat := 10
  const MaxBoats: nat := 5

  /** The boat sizes initializeGame asks for, rand() % 3 + 2 for each raw draw: always 2, 3 or 4. */
  function BoatSizes(rolls: seq<nat>): (sizes: seq<int>)
    ensures |sizes| == |rolls|
    ensures forall k :: 0 <= k < |rolls| ==> 2 <= sizes[k] <= 4 && sizes[k] == rolls[k] % 3 + 2
  {
    seq(|rolls|, k requires 0 <= k < |rolls| => rolls[k] % 3 + 2)
  }

  /** shootAt: a square on the board that is Water becomes WaterShot and one that is BoatPart becomes
      Wreck; a square already targeted, or coordinates off the board, change nothing. The result is
      the message the C code prints. */
  method ShootAt(board: GameBoard, x: int, y: int) returns (outcome: ShotOutcome)
    requires board.Valid()
    modifies board`cells, board.grid
    ensures board.Valid()
    ensures board.cells == Shoot(old(board.cells), x, y)
    ensures outcome == Outcome(old(board.cells), x, y)
  {
    ghost var g := board.cells;
    if x >= 0 && x < board.size && y >= 0 && y < board.size {
      match board.grid[y, x] {
        case Water =>
          board.grid[y, x] := WaterShot;
          outcome := Miss;
        case BoatPart =>
          board.grid[y, x] := Wreck;
          outcome := Hit;
        case WaterShot =>
          outcome := AlreadyTargeted;
        case Wreck =>
          outcome := AlreadyTargeted;
      }
      board.cells := Shoot(g, x, y);
      ShootFrame(g, x, y);
    } else {
      outcome := OutOfBounds;
    }
  }

  /** isAlreadyTargeted: the square has been shot at (see Shots.TargetedIffShotChangesNothing). */
  method IsAlreadyTargeted(board: GameBoard, x: int, y: int) returns (targeted: bool)
    requires board.Valid() && 0 <= x < board.size && 0 <= y < board.size
    ensures targeted == Targeted(board.cells[y][x])
  {
    targeted := board.grid[y, x] == WaterShot || board.grid[y, x] == Wreck;
  }

  /** computerTurn: aims are drawn until one designates a square not yet targeted, and that square
      is shot. The aims stand for the rand() values, and one of them must hit an untargeted square,
      as a uniform random draw eventually does while the game is not over. */
  method ComputerTurn(board: GameBoard, aims: seq<Aim>) returns (x: int, y: int, outcome: ShotOutcome)
    requires board.Valid() && board.size > 0
    requires exists k :: 0 <= k < |aims| && Open(board.cells, aims[k])
    modifies board`cells, board.grid
    ensures board.Valid()
    ensures FirstOpen(old(board.cells), aims).Some?
    ensures var a := aims[FirstOpen(old(board.cells), aims).value];
      x == a.rx % board.size && y == a.ry % board.size
    ensures InBounds(old(board.cells), x, y) && !Targeted(old(board.cells)[y][x])
    ensures board.cells == Shoot(old(board.cells), x, y)
    ensures outcome == Outcome(old(board.cells), x, y) && (outcome == Miss || outcome == Hit)
  {
    ghost var g := board.cells;
    ghost var k := 0;
    var shotValid := false;
    var i := 0;
    x, y := 0, 0;
    outcome := OutOfBounds;
    while !shotValid
      invariant 0 <= i <= |aims|
      invariant board.Valid()
      invariant !shotValid ==> board.cells == g
      invariant !shotValid ==> forall j :: 0 <= j < i ==> !Open(g, aims[j])
      invariant !shotValid ==> exists j :: i <= j < |aims| && Open(g, aims[j])
      invariant shotValid ==> k < |aims| && FirstOpen(g, aims) == Some(k)
      invariant shotValid ==> x == aims[k].rx % board.size && y == aims[k].ry % board.size
      invariant shotValid ==> InBounds(g, x, y) && !Targeted(g[y][x])
      invariant shotValid ==> board.cells == Shoot(g, x, y) && outcome == Outcome(g, x, y)
      decreases |aims| - i, !shotValid
    {
      x := aims[i].rx % board.size;
      y := aims[i].ry % board.size;
      var targeted := IsAlreadyTargeted(board, x, y);
      if !targeted {
        assert Open(g, aims[i]);
        FirstOpenAt(g, aims, i);
        k := i;
        shotValid := true;
        outcome := ShootAt(board, x, y);
      }
      i := i + 1;
    }
  }

  /** isGameOver: scans the board row by row and stops at the first intact boat square. */
  method IsGameOver(board: GameBoard) returns (over: bool)
    requires board.Valid()
    ensures over == NoBoatLeft(board.cells)
    ensures over <==> Count(board.cells, BoatPart) == 0
  {
    ghost var g := board.cells;
    NoBoatLeftCount(g);
    var y := 0;
    while y < board.size
      invariant 0 <= y <= board.size
      invariant forall py, px :: 0 <= py < y && 0 <= px < board.size ==> g[py][px] != BoatPart
    {
      var x := 0;
      while x < board.size
        invariant 0 <= x <= board.size
        invariant forall py, px :: 0 <= py < y && 0 <= px < board.size ==> g[py][px] != BoatPart
        invariant forall px :: 0 <= px < x ==> g[y][px] != BoatPart
      {
        if board.grid[y, x] == BoatPart {
          return false;
        }
        x := x + 1;
      }
      y := y + 1;
    }
    return true;
  }

  /** One step of initializeGame's loop for one side: the i-th boat is created by createBoat with size
      rand() % 3 + 2 at (0, 0) and placed by placeRandomBoat, which extends the side's fleet from the
      first i placements to the first i + 1. */
  method AddBoat(board: GameBoard, rolls: seq<nat>, draws: seq<seq<Draw>>, i: nat, ghost g0: Grid)
    returns (boat: Boat)
    requires Square(g0) && |g0| > 0 && i < |rolls| && FleetInputs(BoatSizes(rolls), draws)
    requires board.Valid() && board.size == |g0|
    requires board.cells == FleetGrid(g0, BoatSizes(rolls)[..i], draws[..i])
    modifies board, board.grid
    ensures fresh(boat) && boat.size == BoatSizes(rolls)[i]
    ensures board.Valid() && board.size == old(board.size) && board.grid == old(board.grid)
    ensures board.cells == FleetGrid(g0, BoatSizes(rolls)[..i + 1], draws[..i + 1])
  {
    ghost var sizes := BoatSizes(rolls);
    boat := new Boat.Create(rolls[i] % 3 + 2, 0, 0, Horizontal);
    var _ := PlaceRandomBoat(board, boat, draws[i]);
    assert sizes[..i + 1][..i] == sizes[..i] && draws[..i + 1][..i] == draws[..i];
  }

  /** The two boards after one pass of main's loop: on the player's pass the player's shot lands on
      the computer's board; on the computer's pass the first aim at an untargeted square of the
      player's board is shot, as computerTurn does. Only the board shot at changes. */
  function Pass(p1: Grid, p2: Grid, playerTurn: bool, shot: (int, int), aims: seq<Aim>): (boards: (Grid, Grid))
    requires Square(p1) && Square(p2)
    ensures Square(boards.0) && Square(boards.1) && |boards.0| == |p1| && |boards.1| == |p2|
    ensures playerTurn ==> boards.0 == p1
    ensures !playerTurn ==> boards.1 == p2
  {
    if playerTurn then (p1, Shoot(p2, shot.0, shot.1))
    else match FirstOpen(p1, aims)
      // computerTurn never returns when no aim is open. This case only makes the function total;
      // PlayGame's requirement that the aims cover the board keeps it from arising.
      case None => (p1, p2)
      case Some(k) => (Shoot(p1, aims[k].rx % |p1|, aims[k].ry % |p1|), p2)
  }

  /** Pass k of main's loop is the player's: the first pass is, and the turn flips after every pass. */
  function PlayersPass(k: nat): bool {
    if k == 0 then true else !PlayersPass(k - 1)
  }

  /** The player fires on exactly the even passes. */
  lemma {:induction false} PlayersPassEven(k: nat)
    ensures PlayersPass(k) <==> k % 2 == 0
  {
    if k > 0 {
      PlayersPassEven(k - 1);
    }
  }

  /** The two boards after the first r passes of main's loop, from p1 and p2: the passes alternate,
      the player's first, with shots[k] and aims[k] the inputs of pass k. */
  function Replay(p1: Grid, p2: Grid, shots: seq<(int, int)>, aims: seq<seq<Aim>>, r: nat): (boards: (Grid, Grid))
    requires Square(p1) && Square(p2) && r <= |shots| && r <= |aims|
    ensures Square(boards.0) && Square(boards.1) && |boards.0| == |p1| && |boards.1| == |p2|
  {
    if r == 0 then (p1, p2)
    else
      var b := Replay(p1, p2, shots, aims, r - 1);
      Pass(b.0, b.1, PlayersPass(r - 1), shots[r - 1], aims[r - 1])
  }

  /** Pass r + 1 of a replay is one more pass on the boards after r passes. */
  lemma ReplayNext(p1: Grid, p2: Grid, shots: seq<(int, int)>, aims: seq<seq<Aim>>, r: nat)
    requires Square(p1) && Square(p2) && r < |shots| && r < |aims|
    ensures var b := Replay(p1, p2, shots, aims, r);
      Replay(p1, p2, shots, aims, r + 1) == Pass(b.0, b.1, PlayersPass(r), shots[r], aims[r])
    ensures PlayersPass(r + 1) == !PlayersPass(r)
  {
  }

  /** No pass before pass n ended the game: after each of the first n - 1 passes neither board was
      finished. */
  predicate Undecided(p1: Grid, p2: Grid, shots: seq<(int, int)>, aims: seq<seq<Aim>>, n: nat)
    requires Square(p1) && Square(p2) && n <= |shots| && n <= |aims|
  {
    forall r :: 1 <= r < n ==> var b := Replay(p1, p2, shots, aims, r); Verdict(b.0, b.1) == None
  }

  /** A game that is undecided after n passes and not over after pass n is undecided after n + 1. */
  lemma UndecidedStep(p1: Grid, p2: Grid, shots: seq<(int, int)>, aims: seq<seq<Aim>>, n: nat)
    requires Square(p1) && Square(p2) && n < |shots| && n < |aims|
    requires Undecided(p1, p2, shots, aims, n)
    requires n > 0 ==> var b := Replay(p1, p2, shots, aims, n); Verdict(b.0, b.1) == None
    ensures Undecided(p1, p2, shots, aims, n + 1)
  {
  }

  /** A game: the two boards and the five boats of each side. */
  class Match {
    var player1Board: GameBoard
    var player2Board: GameBoard
    var player1Boats: seq<Boat>
    var player2Boats: seq<Boat>

    ghost predicate Valid()
      reads this, player1Board, player2Board, player1Board.grid, player2Board.grid
    {
      player1Board != player2Board && player1Board.grid != player2Board.grid &&
      player1Board.Valid() && player2Board.Valid()
    }

    /** initializeGame: two empty boards of BoardSize squares a side; then, for each of the MaxBoats
        rounds, a boat of size rand() % 3 + 2 is created and placed at random, first for the player,
        then for the computer. rolls are the raw size draws of one side and draws[k] the placement
        candidates of its k-th boat. Each board ends as the fleet fold of its side's placements. */
    constructor InitializeGame(rolls1: seq<nat>, draws1: seq<seq<Draw>>, rolls2: seq<nat>, draws2: seq<seq<Draw>>)
      requires |rolls1| == MaxBoats && FleetInputs(BoatSizes(rolls1), draws1)
      requires |rolls2| == MaxBoats && FleetInputs(BoatSizes(rolls2), draws2)
      ensures Valid() && fresh(player1Board) && fresh(player2Board)
      ensures player1Board.size == BoardSize && player2Board.size == BoardSize
      ensures player1Board.cells == FleetGrid(AllWater(BoardSize), BoatSizes(rolls1), draws1)
      ensures player2Board.cells == FleetGrid(AllWater(BoardSize), BoatSizes(rolls2), draws2)
      ensures |player1Boats| == MaxBoats && |player2Boats| == MaxBoats
    {
      var p1 := new GameBoard.Init(BoardSize);
      var p2 := new GameBoard.Init(BoardSize);
      var boats1: seq<Boat>, boats2: seq<Boat> := [], [];
      ghost var sizes1, sizes2 := BoatSizes(rolls1), BoatSizes(rolls2);
      ghost var empty := AllWater(BoardSize);
      for i := 0 to MaxBoats
        invariant fresh(p1) && fresh(p1.grid) && fresh(p2) && fresh(p2.grid)
        invariant p1.Valid() && p2.Valid() && p1 != p2 && p1.grid != p2.grid
        invariant p1.size == BoardSize && p2.size == BoardSize
        invariant p1.cells == FleetGrid(empty, sizes1[..i], draws1[..i])
        invariant p2.cells == FleetGrid(empty, sizes2[..i], draws2[..i])
        invariant |boats1| == i && |boats2| == i
      {
        var b1 := AddBoat(p1, rolls1, draws1, i, empty);
        boats1 := boats1 + [b1];
        var b2 := AddBoat(p2, rolls2, draws2, i, empty);
        boats2 := boats2 + [b2];
      }
      assert sizes1[..MaxBoats] == sizes1 && draws1[..MaxBoats] == draws1;
      assert sizes2[..MaxBoats] == sizes2 && draws2[..MaxBoats] == draws2;
      player1Board, player2Board := p1, p2;
      player1Boats, player2Boats := boats1, boats2;
    }

    /** One pass of the main loop: the side whose turn it is shoots at the other side's board (the
        player at the coordinates read from the console, the computer by computerTurn); then the
        player's own board is checked first, so the computer wins when it has no intact square left,
        else the player wins when the computer's board has none; and the turn passes to the other side. */
    method PlayRound(playerTurnFlag: bool, shot: (int, int), aims: seq<Aim>)
      returns (nextTurnFlag: bool, gameIsOver: bool, winner: Option<Winner>)
      requires Valid()
      requires !playerTurnFlag ==>
        player1Board.size > 0 && exists k :: 0 <= k < |aims| && Open(player1Board.cells, aims[k])
      modifies player1Board`cells, player1Board.grid, player2Board`cells, player2Board.grid
      ensures Valid()
      ensures playerTurnFlag ==>
        player2Board.cells == Shoot(old(player2Board.cells), shot.0, shot.1) &&
        player1Board.cells == old(player1Board.cells)
      ensures !playerTurnFlag ==>
        var a := aims[FirstOpen(old(player1Board.cells), aims).value];
        player2Board.cells == old(player2Board.cells) &&
        player1Board.cells == Shoot(old(player1Board.cells), a.rx % player1Board.size, a.ry % player1Board.size) &&
        !Targeted(old(player1Board.cells)[a.ry % player1Board.size][a.rx % player1Board.size])
      ensures player1Board.cells == Pass(old(player1Board.cells), old(player2Board.cells), playerTurnFlag, shot, aims).0
      ensures player2Board.cells == Pass(old(player1Board.cells), old(player2Board.cells), playerTurnFlag, shot, aims).1
      ensures !playerTurnFlag ==> Untargeted(player1Board.cells) == Untargeted(old(player1Board.cells)) - 1
      ensures winner == Verdict(player1Board.cells, player2Board.cells)
      ensures gameIsOver <==> winner.Some?
      ensures nextTurnFlag == !playerTurnFlag
    {
      if playerTurnFlag {
        var _ := ShootAt(player2Board, shot.0, shot.1);
      } else {
        ghost var g1 := player1Board.cells;
        var x, y, _ := ComputerTurn(player1Board, aims);
        ShootCounts(g1, x, y);
      }
      var over1 := IsGameOver(player1Board);
      if over1 {
        winner := Some(Computer);
        gameIsOver := true;
      } else {
        var over2 := IsGameOver(player2Board);
        if over2 {
          winner := Some(Player);
          gameIsOver := true;
        } else {
          winner := None;
          gameIsOver := false;
        }
      }
      nextTurnFlag := !playerTurnFlag;
    }

    /** The boards are those after the first r passes of a game that started from g0 and h0, and no
        pass before pass r ended it. */
    ghost predicate Replayed(g0: Grid, h0: Grid, shots: seq<(int, int)>, aims: seq<seq<Aim>>, r: nat)
      requires Square(g0) && Square(h0) && r <= |shots| && r <= |aims|
      reads this, player1Board, player2Board
    {
      player1Board.cells == Replay(g0, h0, shots, aims, r).0 &&
      player2Board.cells == Replay(g0, h0, shots, aims, r).1 &&
      Undecided(g0, h0, shots, aims, r)
    }

    /** Pass r of main's loop in a game that started from the boards g0 and h0: PlayRound, seen as one
        more step of Replay. Before it the game was undecided; the pass that ends the game is won by
        the side that fired, unless the player's board never held a boat. */
    method NextPass(ghost g0: Grid, ghost h0: Grid, shots: seq<(int, int)>, aims: seq<seq<Aim>>, r: nat,
                    playerTurnFlag: bool)
      returns (nextTurnFlag: bool, gameIsOver: bool, winner: Option<Winner>)
      requires Valid() && Square(g0) && Square(h0) && r < |shots| && r < |aims|
      requires playerTurnFlag == PlayersPass(r)
      requires Replayed(g0, h0, shots, aims, r)
      requires r > 0 ==> Verdict(player1Board.cells, player2Board.cells) == None
      requires !playerTurnFlag ==> Covers(player1Board.size, aims[r])
      modifies player1Board`cells, player1Board.grid, player2Board`cells, player2Board.grid
      ensures Valid()
      ensures nextTurnFlag == PlayersPass(r + 1)
      ensures Replayed(g0, h0, shots, aims, r + 1)
      ensures winner == Verdict(player1Board.cells, player2Board.cells) && (gameIsOver <==> winner.Some?)
      ensures gameIsOver && !NoBoatLeft(g0) ==> (winner == Some(Player) <==> playerTurnFlag)
      ensures Untargeted(player1Board.cells) == Untargeted(old(player1Board.cells)) - (if playerTurnFlag then 0 else 1)
    {
      if !playerTurnFlag {
        assert r > 0;
        CoversOpen(player1Board.cells, aims[r]);
      }
      UndecidedStep(g0, h0, shots, aims, r);
      ReplayNext(g0, h0, shots, aims, r);
      nextTurnFlag, gameIsOver, winner := PlayRound(playerTurnFlag, shots[r], aims[r]);
    }

    /** main's game loop: rounds alternate, player first, until isGameOver holds for one board.
        shots[r] is what the player types in round r and aims[r] the rand() values the computer
        draws in round r; each aims[r] covers the board. The loop always ends, whatever the player
        types: every computer round targets one more of the player's squares. It ends after at most
        twice the player's untargeted squares plus one rounds, with Verdict of the final boards as its
        winner, and when the player's board starts with a boat, the winner is the side that fired last. */
    method PlayGame(shots: seq<(int, int)>, aims: seq<seq<Aim>>) returns (winner: Winner, rounds: nat)
      requires Valid() && player1Board.size > 0
      requires |shots| > 2 * player1Board.size * player1Board.size
      requires |aims| > 2 * player1Board.size * player1Board.size
      requires forall r :: 0 <= r < |aims| ==> Covers(player1Board.size, aims[r])
      modifies player1Board`cells, player1Board.grid, player2Board`cells, player2Board.grid
      ensures Valid()
      ensures 1 <= rounds <= 2 * Untargeted(old(player1Board.cells)) + 1
      ensures rounds <= |shots| && rounds <= |aims|
      ensures Replayed(old(player1Board.cells), old(player2Board.cells), shots, aims, rounds)
      ensures Verdict(player1Board.cells, player2Board.cells) == Some(winner)
      ensures !NoBoatLeft(old(player1Board.cells)) ==> (winner == Player <==> PlayersPass(rounds - 1))
    {
      ghost var g0, h0 := player1Board.cells, player2Board.cells;
      ghost var u0 := Untargeted(g0);
      EnoughInputs(g0, |shots|);
      EnoughInputs(g0, |aims|);
      var playerTurnFlag := true;
      var gameIsOver := false;
      var w: Option<Winner> := None;
      rounds := 0;
      while !gameIsOver
        invariant Valid() && player1Board.size == |g0|
        invariant 2 * u0 < |shots| && 2 * u0 < |aims|
        invariant playerTurnFlag == PlayersPass(rounds)
        invariant gameIsOver <==> w.Some?
        invariant gameIsOver ==> rounds >= 1 && w == Verdict(player1Board.cells, player2Board.cells)
        invariant !gameIsOver && rounds > 0 ==> Verdict(player1Board.cells, player2Board.cells) == None
        invariant rounds + 2 * Untargeted(player1Board.cells) + (if playerTurnFlag then 1 else 0) <= 2 * u0 + 1
        invariant Replayed(g0, h0, shots, aims, rounds)
        invariant gameIsOver && !NoBoatLeft(g0) ==> (w == Some(Player) <==> PlayersPass(rounds - 1))
        decreases 2 * Untargeted(player1Board.cells) + (if playerTurnFlag then 1 else 0)
      {
        NoBoatLeftCount(player1Board.cells);
        assert rounds <= 2 * u0;
        var over;
        playerTurnFlag, over, w := NextPass(g0, h0, shots, aims, rounds, playerTurnFlag);
        gameIsOver := over;
        rounds := rounds + 1;
      }
      winner := w.value;
    }
  }
}
