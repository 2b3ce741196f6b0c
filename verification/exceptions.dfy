/** The game's checked exceptions, one constructor per exception class and with
    the same fields, and the wrappers that the model's operations return in place
    of throwing. */
module Exceptions {

  /** A rejected command. Every engine command that fails returns exactly one of
      these and leaves the game untouched. */
  datatype Error =
    | TileDoesNotExist(column: char, row: int)
    | MissingCharacter(column: char, row: int)
    | CharacterNotOwned(characterName: string, ownedByPlayer: int, playerAttemptingToUse: int)
    | NoActionsRemaining(characterName: string)
    | SameTile(column: char, row: int)
    | TileOccupied(characterName: string, column: char, row: int)
    | OutOfMoveRange(characterName: string, column: char, row: int, moveRange: int)
    | OutOfAttackRange(characterName: string, column: char, row: int, minAttackRange: int, maxAttackRange: int)
    | NoEnemy(column: char, row: int)

  /** A Java reference that may be null, for values that are not objects. */
  datatype Option<+T> = None | Some(value: T)

  /** The outcome of a Java method that returns a value or throws. */
  datatype Result<+T> = Ok(value: T) | Err(error: Error)

  /** The outcome of a `void` Java method that may throw. */
  datatype Outcome = Pass | Fail(error: Error)
}
