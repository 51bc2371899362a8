/**
 Types shared by the rider and driver screens: an optional value (the
 TypeScript `T | null`) and the two species the product transports.
 */
module Common {

  /** A value that may be absent; `None` plays the role of `null`. */
  datatype Option<+T> = None | Some(value: T) {

    /** The carried value, or `default` when absent. */
    function GetOr(default: T): T {
      match this
      case Some(v) => v
      case None => default
    }
  }

  /** The species a trip can carry: the TypeScript `"dog" | "cat"`. */
  datatype PetType = Dog | Cat
}
