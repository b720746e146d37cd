/**
 * What one invocation of an HTTP handler of package api amounts to: the store
 * calls it issued, in order, and the response it wrote.
 */
module Api {
  import opened Wrappers
  import opened Db

  type Status = int

  const StatusOK: Status := 200
  const StatusBadRequest: Status := 400
  const StatusUnauthorized: Status := 401
  const StatusForbidden: Status := 403
  const StatusNotFound: Status := 404
  const StatusInternalServerError: Status := 500

  /**
   * `calls` is the exact sequence of store calls; `body` is the JSON payload of
   * a successful response and None for an error response (whose message is
   * not modelled).
   */
  datatype Outcome<T> = Outcome(calls: seq<Call>, status: Status, body: Option<T>)

  /** An error response written after the given store calls. */
  function Fail<T>(calls: seq<Call>, status: Status): Outcome<T> {
    Outcome(calls, status, None)
  }

  /** The status a handler writes for a failed point lookup. */
  function LookupErrorStatus<T>(l: Lookup<T>): (s: Status)
    requires !l.Found?
    ensures s == StatusNotFound <==> l.NotFound?
    ensures s == StatusInternalServerError <==> l.Failed?
  {
    if l.NotFound? then StatusNotFound else StatusInternalServerError
  }

  /**
   * The tail shared by the handlers that end in one store operation and map
   * any error of it to 500: the response after `calls`, given the operation's
   * result.
   */
  function Conclude<T>(calls: seq<Call>, reply: Reply<T>): (o: Outcome<T>)
    ensures o.calls == calls
    ensures o.status == StatusOK <==> reply.Ok?
    ensures o.status != StatusOK ==> o.status == StatusInternalServerError && o.body == None
    ensures o.status == StatusOK ==> o.body == Some(reply.value)
  {
    match reply
    case Ok(v) => Outcome(calls, StatusOK, Some(v))
    case Err(_) => Fail(calls, StatusInternalServerError)
  }
}
