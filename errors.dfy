/** The failures the services raise, one constructor per exception class of the
    backend, and the result type the services return instead of throwing. */
module Errors {

  datatype Option<+T> = None | Some(value: T)

  datatype Error =
    | UserAlreadyExists(username: string)
      // UserAlreadyExistsException: register with a taken username
    | UserNotFound(key: string, field: string)
      // UserNotFoundException(key, field): field is "id" or "username"
    | MenuItemNotFound(id: string)
      // MenuItemNotFoundException
    | OrderNotFound(id: string)
      // OrderNotFoundException
    | InvalidCredentials
      // InvalidCredentialsException: unknown user and wrong password alike
    | InvalidStatus(status: string)
      // the IllegalArgumentException of updateOrderStatus
    | NullId
      // the IllegalArgumentException a repository's findById raises for a null id
    | UnresolvedReference(orderId: string)
      // the null dereference that fails when an order's user or menu item
      // reference no longer resolves (the menu item was deleted)

  datatype Result<+T> = Ok(value: T) | Err(error: Error)

  /** The outcome of an operation that returns nothing (a Java `void` method). */
  datatype Outcome = Done | Failed(error: Error)
}
