/** Option, Result and Outcome wrappers, and the kinds of exception the portal raises. */
module Wrappers {

  datatype Option<+T> = None | Some(value: T)

  /** The Python exceptions that the modelled code raises or lets escape. */
  datatype Error =
    | ValidationError   // django.core.exceptions.ValidationError
    | TypeError         // raised by the grouped choice fields
    | IndexError        // a choices tuple indexed out of range
    | AttributeError    // an attribute read on None or on an anonymous user
    | ValueError        // range() with a zero step
    | DoesNotExist      // objects.get() found no row
    | InUse             // the bare Exception the delete views raise
    | ProtectedError    // deleting a row that an on_delete=PROTECT key still points at

  /** A computation that yields a value or raises. */
  datatype Result<+T> = Ok(value: T) | Err(error: Error)

  /** A computation that returns nothing or raises. */
  datatype Outcome = Pass | Fail(error: Error)
}
