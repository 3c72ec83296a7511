/** Values shared by every part of the school backend model: optional values,
    results, and the parts of a user account the core reads. */
module Common {

  datatype Option<T> = None | Some(value: T)

  datatype Result<T, E> = Ok(value: T) | Err(error: E)

  type UserId = nat

  /** A point in time, as handed in by the caller (the model has no clock). */
  type Time = int

  /** The user account as the core sees it. `role` is None both for a user
      without a `role` attribute (the anonymous user) and for a user whose role
      is unset; the permission checks treat the two alike. `fullName` is the
      user model's own `full_name`, which is not part of this model. */
  datatype User = User(
    id: UserId,
    isAuthenticated: bool,
    role: Option<string>,
    isStaff: bool,
    isSuperuser: bool,
    lastName: string,
    fullName: string
  )
}
