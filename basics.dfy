/** Shared result types and the exceptions the game engine raises. */
module Basics {

  datatype Option<+T> = None | Some(value: T)

  datatype Result<+T, +E> = Ok(value: T) | Err(error: E)

  /** The exceptions thrown by classes.js and app.js, by kind. */
  datatype Error =
    | InvalidBox       // RangeError from checkBoxValue: not one of the 13 boxes
    | InvalidValue     // TypeError from checkIsNumber: the score is NaN
    | AlreadyScored    // Error from Player.tally: the box already holds a number
    | NoCurrentPlayer  // TypeError: players.find found nobody, so player.tally is undefined
    | NoSuchDie        // TypeError: game.dice[die] is undefined, so .toggle() fails

  /** Socket ids: socket.io never hands out an empty id. */
  type Id = s: string | s != [] witness "id"
}
