/** Failure values of the planning core.

    Every error the planner raises is a Python `ValueError` carrying a
    message; the model keeps the kind of failure and the values the message
    is built from. */
module Outcomes {

  datatype Error =
      /** More target wells were requested than the plate holds. */
    | CapacityError(requested: int, capacity: nat)
      /** Combinatorial mode was given no part groups. */
    | NoPartGroups
      /** Manual mode was given no reactions. */
    | NoReactions
      /** Parts referenced by reactions but absent from the source plate,
          every one of them, in sorted order. */
    | MissingReagents(names: seq<string>)
      /** A reaction whose parts alone need more than the total volume. */
    | VolumeExceeded(target: string, nParts: nat, partVolume: int, totalVolume: int)
      /** A reagent declared with no source well: Python's `min` of an
          empty sequence. */
    | NoSourceWells(reagent: string)

  datatype Option<+T> = None | Some(value: T)

  datatype Result<+T> = Ok(value: T) | Err(error: Error)
}
