/** Option and Result, used for the source's nulls and exceptions. */
module Wrappers {

  datatype Option<+T> = None | Some(value: T)

  datatype Result<+T, +E> = Success(value: T) | Failure(error: E)
}

/** The game variants a table or an asset belongs to (TheOracle.Core.GameName). */
module Games {

  /** `NoGame` is the source's `GameName.None`: no game was chosen. */
  datatype GameName = NoGame | Ironsworn | Starforged

  /** `GameName.ToString()`. */
  function GameText(g: GameName): (r: string)
    ensures |r| > 0
  {
    match g
    case NoGame => "None"
    case Ironsworn => "Ironsworn"
    case Starforged => "Starforged"
  }
}
