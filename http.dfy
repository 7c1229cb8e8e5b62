/** Calls from one service to another. */
module Http {
  /** A call to another service: it either fails to connect (the client
      raises) or answers with a status code and a decoded body. */
  datatype Fetch<T> = ConnectionError | Reply(status: int, body: T)

  /** The answer is a success with a body to read. */
  predicate Ok<T>(f: Fetch<T>)
  {
    f.Reply? && f.status == 200
  }
}
