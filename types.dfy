/** The enumerations and small result types shared by every part of the game. */
module Types {

  /** The state of one square of a board. The C code calls the third state BOAT;
      here it is BoatPart, since Boat names the ship class. */
  datatype CaseType = Water | WaterShot | BoatPart | Wreck

  /** The direction in which a boat extends from its anchor square. */
  datatype Orientation = Horizontal | Vertical

  /** What shootAt reports on the console, as a value. */
  datatype ShotOutcome = Miss | Hit | AlreadyTargeted | OutOfBounds

  /** The side that announceWinner names. */
  datatype Winner = Player | Computer

  datatype Option<T> = None | Some(value: T)
}
