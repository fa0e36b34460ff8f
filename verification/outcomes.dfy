/** Outcome classes of the cart endpoints and the small wrappers the model uses. */
module Outcomes {

  datatype Option<+T> = None | Some(value: T)

  /** Why a set-quantity request body was refused. */
  datatype ValidationReason =
    | NotADictionary    // the body is not a JSON object, so no field is read
    | NotAnInteger      // the integer field could not parse the value
    | BelowMinimum      // below the min_value taken from MinValueValidator(1)
    | AboveMaximum      // above the range of a positive small-integer column
    | QuantityRequired  // the serializer's own check: quantity missing or falsy

  /** The error classes a cart request can end in. MultipleObjectsReturned is what the
      ORM raises when a lookup that expects one row finds several. */
  datatype Error =
    | NotFound
    | ValidationError(reason: ValidationReason)
    | MultipleObjectsReturned

  datatype Result<+T> = Ok(value: T) | Err(error: Error)
}
