/** Values shared by every handler of the recipes API: optional values, the
    (value, error) pairs that Go calls return, and the HTTP reply a handler
    writes through gin's context. */
module Http {

  datatype Option<+T> = None | Some(value: T)

  /** The result of a Go call that returns `(T, error)`: either the value or
      the error's text. Used for request binding and token signing. */
  datatype Outcome<+T> = Ok(value: T) | Err(message: string)

  /** What a handler writes with `c.JSON(status, ...)`: a payload on success,
      or a `{"error": message}` body. */
  datatype Response<+T> = Reply(status: int, body: T) | Failure(status: int, message: string)

  const StatusOK: int := 200
  const StatusCreated: int := 201
  const StatusBadRequest: int := 400
  const StatusUnauthorized: int := 401
  const StatusNotFound: int := 404
  const StatusInternalServerError: int := 500

  /** The text of `mongo.ErrNoDocuments`, which `FindOne(...).Decode` returns
      when no document matches the filter. */
  const ErrNoDocumentsText: string := "mongo: no documents in result"

  /** A header or environment lookup: Go's `GetHeader` and `os.Getenv` both
      answer "" for a name that is not set. */
  function Lookup(m: map<string, string>, name: string): string
  {
    if name in m then m[name] else ""
  }
}
