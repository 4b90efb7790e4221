/** Values shared by every part of the model: optional values, the ways a
    request can fail, and results that carry either a value or such a failure. */
module Common {

  datatype Option<T> = None | Some(value: T) {
    function GetOr(default: T): T {
      match this
      case Some(v) => v
      case None => default
    }
  }

  /** The request fields a serializer can reject, one per key of the error response. */
  datatype Field =
    | PhoneNumberField | RoleField | PasswordField | GenderField | FullNameField | CarModelField
    | CustomerField | LocationFromField | LocationToField

  /** One constructor per kind of failure the views can report. */
  datatype Error =
    | NotAuthenticated           // no authenticated user on the request
    | Forbidden                  // a permission class refused the caller
    | NotFound                   // lookup outside the view's queryset, or a page out of range
    | Invalid(fields: set<Field>)  // serializer validation errors, keyed by field
    | PhoneRequired              // the ValueError raised by create_user
    | DuplicatePhone             // the unique constraint on phone_number, raised by save
    | BadCredentials             // the single, generic login failure

  datatype Result<T> = Ok(value: T) | Err(error: Error)
}
