/** The values of the Monty Hall game: what stands behind a door, what the
    player may do once the host has opened a door, the two exceptions the
    game can raise, and the observable state of one door. */
module MontyTypes {

  /** The number of doors every game is built with. */
  const DoorsNumber: nat := 3

  /** What stands behind a door (the `Price` class with its two subclasses). */
  datatype Prize = Car | Goat

  /** The player's second decision. */
  datatype PlayerAction = Change | Stay

  /** The exceptions the game raises: a role flag set against a door's
      invariant, and a list index outside the list. */
  datatype Error = InvalidOperation | ArgumentOutOfRange

  datatype Option<+T> = None | Some(value: T)

  /** Outcome of an operation that changes state and returns nothing. */
  datatype Outcome = Pass | Fail(error: Error)

  /** Outcome of an operation that returns a value, or the exception it raises. */
  datatype Result<+T> = Success(value: T) | Failure(error: Error) {

    predicate IsFailure() {
      Failure?
    }

    function PropagateFailure<U>(): Result<U>
      requires Failure?
    {
      Failure(error)
    }

    function Extract(): T
      requires Success?
    {
      value
    }

    /** The value on success, `default` when an exception was raised. */
    function GetOr(default: T): T {
      match this
      case Success(v) => v
      case Failure(_) => default
    }

    function ToOutcome(): Outcome {
      match this
      case Success(_) => Pass
      case Failure(e) => Fail(e)
    }
  }

  /** What can be observed of one door: its prize and its three role flags
      (first pick of the player, door opened by the host, final pick). */
  datatype DoorState = DoorState(price: Prize, firstChoice: bool, hostChoice: bool, definitiveChoice: bool)
}
