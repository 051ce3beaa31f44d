/** Exceptions raised by the person resource, and the wrappers that carry them. */
module Outcomes {

  /** The exceptions the resource raises or lets through. */
  datatype Error =
    /** permissions.PermissionDenied (self-deletion, or a missing admin right) */
    | PermissionDenied
    /** get_model_or_404: no person with that id */
    | NotFound
    /** WrongParameterException */
    | WrongParameter(message: string)
    /** PersonInProtectedAccounts */
    | PersonInProtectedAccounts(message: string)
    /** DepartmentNotFoundException */
    | DepartmentNotFound
    /** Python KeyError from `d[key]` on a missing key */
    | KeyError(key: string)
    /** Python TypeError from iterating over a value that is not iterable */
    | TypeError
    /** An exception raised by a collaborator service, propagated unchanged */
    | ServiceRaised

  datatype Result<T> = Ok(value: T) | Err(error: Error)

  datatype Option<T> = None | Some(value: T)
}
