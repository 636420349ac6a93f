/** The error classes the services throw, the status each carries, and the
    result of a service call: a value, or the error it was rejected with. */
module Errors {

  datatype Option<+T> = None | Some(value: T)

  /** One constructor per error class; messages are not modelled. */
  datatype ErrorKind =
    | AppointmentNotFound
    | AppointmentValidation
    | AppointmentStatusField
    | AppointmentAlreadyExists
    | OwnerNotFound
    | VetNotFound
    | PetNotFound
    | UserNotFound
    | PetAlreadyExists
    | OwnerAlreadyExists
    | VetAlreadyExists
    | UserAlreadyExists
    | OwnerValidation
    | UserValidation
      /** UserPasswordFieldError is thrown with 405 by the hashing helpers and
          with 500 by UserService.create after a falsy save. */
    | UserPasswordField(status: nat)
    | UserUnauthorized
      /** The plain HttpError raised when a route is given no permission list. */
    | PermissionConfig
    | Unknown
      /** An exception raised by the persistence library itself. */
    | StoreFailure

  /** The HTTP status an error reaches the client with (the error middleware
      answers 500 for an error that carries no status). */
  function Status(e: ErrorKind): nat
  {
    match e
    case AppointmentNotFound | OwnerNotFound | VetNotFound | PetNotFound | UserNotFound => 404
    case AppointmentValidation | AppointmentStatusField | OwnerValidation | UserValidation => 405
    case AppointmentAlreadyExists | PetAlreadyExists | OwnerAlreadyExists
      | VetAlreadyExists | UserAlreadyExists => 409
    case UserPasswordField(s) => s
    case UserUnauthorized => 401
    case PermissionConfig => 400
    case Unknown | StoreFailure => 500
  }

  datatype Result<+T> = Ok(value: T) | Err(error: ErrorKind)

  /** The `catch` block shared by the services: an error whose class is in
      `rethrown` propagates unchanged, any other becomes UnknownError. */
  function Catch<T>(r: Result<T>, rethrown: set<ErrorKind>): (c: Result<T>)
    ensures r.Ok? ==> c == r
    ensures r.Err? ==> c.Err? && (c.error == r.error <==> r.error in rethrown || r.error == Unknown)
    ensures c.Err? ==> c.error in rethrown || c.error == Unknown
  {
    if r.Err? && r.error !in rethrown then Err(Unknown) else r
  }
}
