# Battleship board and placement, modelled in Dafny

This project models the core of a two-player (human against computer) Battleship game in C.
Each side owns a square board whose squares are `WATER`, `WATER_SHOT`, `BOAT` or `WRECK`.
Boats are placed at random under a no-touch rule; the sides then shoot in turn until one board
has no intact boat square left.

The model follows the C code's own structure:

- `Types`: the enumerations `CaseType` and `Orientation`, plus the value that stands for each
  printed shot message. The C state `BOAT` is called `BoatPart` here, because `Boat` is the class
  of boats.
- `Grids`: a board as a value (`seq<seq<CaseType>>`, indexed `[y][x]` as the C indexes
  `grid[y][x]`) and counts of squares by state.
- `Placement`: the no-touch rule of `canPlaceBoat` and the writes of `setBoatOnBoard`, stated as
  functions on board values, with the first accepted random candidate and the board that
  `placeRandomBoat` leaves.
- `Fleets`: the fleet that `initializeGame` places, one random placement per boat. The main theorem
  is that no two ships of a fleet touch, diagonals included.
- `Shots`: the per-square shot transition of `shootAt`, the already-targeted test, the game-over
  test and the winner check, all on board values.
- `Views`: the symbol each square shows in `printPlayerView` and `printComputerView`, and the
  fog-of-war property.
- `Gameboard`: class `GameBoard` over an `array2<CaseType>`, with a ghost copy `cells` of its
  squares that `Valid()` ties to the array. Its constructor is `initializeGameBoard`.
- `Boats`: class `Boat` and the functions of boat.c, namely `createBoat`, `isBoatAlive`,
  `canPlaceBoat`, `setBoatOnBoard` and `placeRandomBoat`. Each method is imperative and is proved
  against the `Placement` functions. main.c:44-131 holds a line-for-line copy of the same
  functions, and the model defines them once.
- `Game`: `shootAt`, `isAlreadyTargeted`, `computerTurn` and `isGameOver` from main.c, and
  class `Match` (the boards and boats of the `Game` struct). Its constructor is `initializeGame`;
  `PlayRound` is one pass of `main`'s game loop and `PlayGame` the whole loop. The pure function
  `Pass` states what one pass does to the two boards, and `Replay` folds the passes in order,
  the player's first. `PlayGame` leaves the boards equal to that fold. Given computer aims that
  cover the board, the loop always ends, even if the player repeats a shot forever: the turn passes after every pass, and every computer
  pass targets one more of the player's squares.

Random numbers are an input: `placeRandomBoat` takes a sequence of `Draw(rx, ry, ro)` values,
`computerTurn` a sequence of `Aim(rx, ry)` values and `initializeGame` one raw size draw per boat. These are the raw non-negative results of
`rand()`, reduced with `% size` and `% 2` exactly as the C does. Console output becomes a
returned value (`ShotOutcome`, the winner), and the player's `scanf` becomes a coordinate
parameter.

Where the C code does something a reader might not expect, the model follows the code:

- `initializeGameBoard` never rejects a size. The model takes any natural number.
- `canPlaceBoat` only tests the far edge in the boat's direction of travel. It never tests that
  the anchor is on the board. The model makes `0 <= x, y < size` a precondition, which is what
  the only caller guarantees through `rand() % size`.
- After every shot, the player's own board is checked first, whichever side has just fired.
- `hit_count` is never initialised by `createBoat` and never incremented by `shootAt`. The model
  leaves it unconstrained and never changes it.
- After a failed `placeRandomBoat`, the boat keeps the last of the 100 candidates.

## Model

| member | source | states |
|---|---|---|
| `Gameboard.GameBoard.Init` | gameboard.c:5-14 | the new board has size n, and all n×n squares are Water |
| `Boats.Boat.Create` | boat.c:6-21 | the boat's size, anchor and orientation are the arguments; the hit count is left unconstrained |
| `Boats.IsBoatAlive` | boat.c:24-31 | false for a missing boat; otherwise true exactly when the hit count is below the size |
| `Boats.CanPlaceBoat` | boat.c:34-61 | returns false when the boat runs past the far edge in its direction; otherwise the result equals the no-touch rule `CanPlace` on the current squares |
| `Boats.SetBoatOnBoard` | boat.c:63-70 | the new squares are `PlaceBoat` of the old ones: BoatPart on the boat's run, everything else unchanged |
| `Boats.PlaceRandomBoat` | boat.c:74-92 | false for a missing board or boat, which are then left alone. Otherwise true exactly when `RandomShip` finds an accepted candidate among the first 100; the boat then holds that ship, and the board becomes `RandomPlacement` of the old one. When false, the board is unchanged and the boat holds the 100th candidate |
| `Boats.DrawPlacement` | boat.c:78-91 | true exactly when one of the first 100 candidates is accepted; the boat holds the first accepted candidate (the 100th when none is) and the board gains it; the boat's size and hit count are untouched |
| `Placement.FootprintIsOccupied` | boat.c:64-69 | the squares setBoatOnBoard visits are size distinct squares, and they are exactly the run of size squares from the anchor |
| `Placement.NoTouch` | boat.c:43-60 | the rule accepts a boat exactly when it fits and every on-board square under it or touching it, diagonals included, is Water |
| `Placement.EmptyBoardAcceptsWhatFits` | boat.c:36-60 | on an all-Water board a boat is accepted exactly when it does not run past the far edge |
| `Placement.PlaceBoatExact` | boat.c:63-70 | after placing a boat that fits, its size squares along the orientation are on the board and BoatPart, and every square outside the footprint is unchanged |
| `Placement.PlaceOnlyOverWater` | boat.c:86-88 | an accepted placement changes only Water squares, into BoatPart, so no earlier boat or shot is disturbed |
| `Placement.FirstLegal` | boat.c:79-91 | the result is the index of the first accepted candidate, and every earlier one is refused; None exactly when every candidate is refused |
| `Placement.RandomShip` | boat.c:78-91 | the boat placeRandomBoat places, if any: it has the requested size, its anchor is on the board and the no-touch rule accepts it; None exactly when all 100 candidates are refused |
| `Placement.RandomShipPicked` | boat.c:81-88 | the boat placed is the one the first accepted candidate describes, its anchor reduced modulo the board size |
| `Placement.RandomPlacement` | boat.c:74-92 | the board placeRandomBoat leaves stays square of the same size, and every square either keeps its state or goes from Water to BoatPart |
| `Fleets.FleetGrid` | main.c:168-178 | the board after placing a sequence of boats one by one, each at the first accepted of its random candidates: square of the same size, with every square either unchanged or turned from Water to BoatPart |
| `Fleets.AcceptedIsApart` | boat.c:43-60 | a boat the no-touch rule accepts touches no boat already on the board, diagonals included |
| `Fleets.PlaceAccepted` | boat.c:86-88 | placing an accepted boat keeps every boat on the board and apart from the others, and the board shows BoatPart exactly on the boats |
| `Fleets.FleetNeverTouches` | main.c:168-178 | after any sequence of placements every ship lies on the board, no two ships touch, even diagonally, and the board holds BoatPart exactly on the ships and its earlier squares elsewhere |
| `Fleets.FleetOnEmptyBoard` | main.c:162-178 | a fleet set on an empty board leaves no square targeted: BoatPart on the ships, Water elsewhere, and no two ships touch |
| `Shots.Fire` | main.c:264-277 | a square shot at is targeted afterwards; a square already targeted keeps its state; it shows a wreck exactly when it held a boat, so Water becomes WaterShot and BoatPart becomes Wreck |
| `Shots.Shoot` | main.c:262-280 | shootAt's effect on the board: the board stays square of the same size, the square fired at is targeted afterwards when it is on the board, and no square that was already targeted changes |
| `Shots.FireTransitions` | main.c:264-277 | a shot changes a square exactly when it is untargeted; the only changes are Water to WaterShot and BoatPart to Wreck, and a shot square stays put under further shots |
| `Shots.Outcome` | main.c:262-280 | the message is out of bounds exactly off the board, a miss exactly on Water, a hit exactly on BoatPart, already targeted exactly on WaterShot or Wreck |
| `Shots.ShootFrame` | main.c:262-271 | a shot changes at most the square fired at, to its shot state |
| `Shots.ShootNoOp` | main.c:273-280 | a shot off the board or at a targeted square leaves the whole board unchanged |
| `Shots.ShootIdempotent` | main.c:262-280 | a second shot at the same square changes nothing and is reported as already targeted, unless the square is off the board |
| `Shots.TargetedIffShotChangesNothing` | main.c:296-298 | a square is already targeted exactly when shooting it would change nothing |
| `Shots.ShootCounts` | main.c:264-272 | a hit removes exactly one intact boat square; a hit or miss removes exactly one untargeted square; other shots remove none |
| `Shots.NoBoatLeftCount` | main.c:319-328 | a board has no BoatPart square exactly when its BoatPart count is zero, and an unfinished board still has an untargeted square |
| `Shots.GameOverIsStable` | main.c:319-328 | once a board has no BoatPart square, no shot brings one back |
| `Shots.FirstOpen` | main.c:306-315 | the result is the index of the first aim at an untargeted square, and every earlier aim hits a targeted one |
| `Shots.CoversOpen` | main.c:306-315 | while a board still has an intact boat square, aims that cover every square include one at an untargeted square, so computerTurn's search ends |
| `Shots.UntargetedBound` | main.c:364-396 | a board of n squares a side has at most n × n untargeted squares, which bounds the number of computer turns |
| `Shots.EnoughInputs` | main.c:364-396 | more than 2 × n × n supplied inputs exceed twice the untargeted squares of an n × n board, so the passes never run out of input |
| `Shots.Verdict` | main.c:386-392 | the computer wins exactly when the player's board has no intact square; the player wins exactly when the player's board has one and the computer's has none |
| `Game.ShootAt` | main.c:261-281 | the new squares are `Shoot` of the old ones, and the result is the printed message for the old square |
| `Game.IsAlreadyTargeted` | main.c:296-298 | true exactly when the square is WaterShot or Wreck |
| `Game.ComputerTurn` | main.c:301-316 | shoots the square of the first aim that is not yet targeted, so the shot is always a miss or a hit |
| `Game.IsGameOver` | main.c:319-328 | true exactly when no square is BoatPart, that is, when the count of intact boat squares is zero |
| `Game.BoatSizes` | main.c:169 | every boat size is rand() % 3 + 2, so 2, 3 or 4 |
| `Game.AddBoat` | main.c:169-172 | creating the i-th boat and placing it at random extends the side's fleet from the first i placements to the first i + 1 |
| `Game.Match.InitializeGame` | main.c:154-181 | both boards are fresh, distinct, of size 10, and each is the fleet fold of its own side's five random placements; each side has five boats |
| `Game.Pass` | main.c:364-385 | one pass changes only the board of the side being shot at: on the player's pass the player's board is unchanged, on the computer's pass the computer's board is unchanged; both stay square of the same size |
| `Game.PlayersPassEven` | main.c:360-395 | the flag starts true and flips after every pass, so the player fires on exactly the even-numbered passes |
| `Game.ReplayNext` | main.c:364-396 | a proof step for the loop, not a separate fact about the game: it unfolds `Replay`'s own definition once, so the boards after r + 1 passes are one more `Pass` on those after r, and it flips the turn flag |
| `Game.UndecidedStep` | main.c:386-392 | if no earlier pass ended the game and pass r did not either, then no pass up to r ended it |
| `Game.Match.PlayRound` | main.c:364-396 | the new boards are `Pass` of the old ones. On the player's pass the player's shot lands on the computer's board and the player's board is unchanged. On the computer's pass the computer's board is unchanged, and the player's board is shot at the square of the first aim that is untargeted, which was untargeted before, so exactly one untargeted square goes. The winner is `Verdict` of the new boards, the game is over exactly when there is a winner, and the turn flag flips |
| `Game.Match.NextPass` | main.c:364-396 | on boards that are the replay of the first r passes, with no pass decided so far, one more pass leaves the replay of r + 1 passes with the flag of pass r + 1. The winner is `Verdict` of the new boards, and a pass that ends the game is won by the side that fired, unless the player's board never held a boat |
| `Game.Match.PlayGame` | main.c:360-396 | the loop ends whatever the player types, after at least one and at most twice the player's untargeted squares plus one passes. The final boards are `Replay` of the inputs over those passes: they alternate player first, and each pass shoots only the other side's board. No pass before the last one decided the game, and the winner is `Verdict` of the final boards. When the player's board starts with a boat, the winner is the player exactly when the last pass was the player's |
| `Views.PlayerSymbol` | gameboard.c:44-56 | the owner's symbol is one character; it is "o" or "X" exactly on a targeted square, "B" or "X" exactly on a boat square, and "~" exactly on a Water square. So Water shows "~", WaterShot "o", BoatPart "B" and Wreck "X" |
| `Views.ComputerSymbol` | gameboard.c:84-95 | the opponent's symbol is one character; it is "~" exactly on an untargeted square, so Water and BoatPart both show "~", and a targeted square shows what its owner sees ("o" for WaterShot, "X" for Wreck) |
| `Views.PlayerView` | gameboard.c:39-58 | one symbol per square, row by row, and the owner sees "B" exactly where an intact boat square lies |
| `Views.ComputerView` | gameboard.c:79-97 | one symbol per square, row by row; the opponent sees "~" exactly on the untargeted squares and never sees "B" |
| `Views.PlayerSymbolsDistinct` | gameboard.c:44-56 | the owner's view gives the four states four different symbols |
| `Views.ComputerSymbolsFog` | gameboard.c:84-95 | two squares look alike to the opponent exactly when they differ only by an unhit boat; targeted squares look as in the owner's view; "~" means untargeted |
| `Views.FogOfWar` | gameboard.c:79-95 | the opponent's view of a board equals its view of the same board with every intact boat square turned to Water |
| `Views.FogHidesPlacement` | gameboard.c:79-95 | two boards that differ only in where their intact boats lie look the same to the opponent |
| `Views.PlayerViewFaithful` | gameboard.c:39-58 | the owner's view determines the board |

## Left out

- Console output (`printf`, `fprintf`) and the `scanf` in `playerTurn` are left out. A shot's
  message is returned as a `ShotOutcome`, and the player's coordinates are a parameter.
- The views' rows, column headers and trailing spaces are left out; only the symbol of each
  square is modelled. The "Invalid game board." branch for a null board is left out, and so is
  the `default: "?"` case, which a `CaseType` value cannot reach.
- `rand()` and `srand(time(NULL))` are left out; their results are supplied as sequences.
- `Boats.PlaceRandomBoat` requires at least 100 supplied draws and a board size above zero.
  `rand() % 0` is undefined in C.
- `Game.ComputerTurn` requires that some supplied aim designates an untargeted square. This
  stands for the random loop eventually succeeding. `Shots.NoBoatLeftCount` shows that such a
  square exists while the game is not over.
- `malloc` and `free`, including `freeGameBoard`, `freeGame` and the NULL result on allocation
  failure in `createBoat` and `initializeGame`, are left out. Dafny allocation does not fail.
- Negative board sizes are left out. The only caller passes 10.
- `Game.Match.InitializeGame`: each side's raw draws are a separate input, so the interleaving of
  the two sides' draws in one `rand()` stream is not modelled. The boats' positions are not stated
  in its contract, only their number; `Boats.PlaceRandomBoat` states each one.
- `Game.Match.PlayGame` requires that each pass's computer aims cover every square of the board.
  This stands for a uniform `rand()` eventually reaching every square. It also requires inputs for
  more than 2 × size × size passes, which the proved bound on the number of passes never exceeds. The player's console input is one coordinate pair per
  pass, of which the computer's passes ignore theirs.
- maine.c and game.c are second copies of main.c's setup and loop. They are not part of this
  model either.
