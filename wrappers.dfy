/** Small value wrappers shared by every module of the model. */
module Wrappers {

  /** A nullable value: `None` stands for SQL NULL or a missing JavaScript value. */
  datatype Option<T> = None | Some(value: T) {
    function GetOr(default: T): T {
      if Some? then value else default
    }
  }

  /** A request-body field: `Unset` when the key is absent (`undefined`), `Set` when it was sent. */
  datatype Field<T> = Unset | Set(value: T)

  /** HTTP status codes the handlers answer with. */
  const OK: int := 200
  const CREATED: int := 201
  const BAD_REQUEST: int := 400
  const UNAUTHORIZED: int := 401
  const FORBIDDEN: int := 403
  const NOT_FOUND: int := 404
  const CONFLICT: int := 409
  const SERVER_ERROR: int := 500
}
