/** The refusal classifier: does a connect error prove that the host is up? */
module Refusal {

  /** Linux's value of syscall.ECONNREFUSED. */
  const ECONNREFUSED: int := 111

  /**
   * The shapes of error a connect attempt can return. `timeout` is what the
   * error's Timeout() method reports when the error is a net.Error.
   */
  datatype NetError =
    | Nil
    | OpError(op: string, timeout: bool)
    | Errno(code: int, timeout: bool)
    | Other(timeout: bool)

  /** True when the error is a net.Error whose Timeout() is true. */
  predicate IsTimeout(err: NetError) {
    match err
    case Nil => false
    case OpError(_, t) => t
    case Errno(_, t) => t
    case Other(t) => t
  }

  /**
   * hasRefusedConnection: nil and timeouts first, then the type switch. Only a
   * read-stage OpError and the raw ECONNREFUSED errno are refusals.
   */
  function HasRefusedConnection(err: NetError): (refused: bool)
    ensures err == Nil ==> !refused
    ensures IsTimeout(err) ==> !refused
    ensures err.OpError? && !err.timeout ==> (refused <==> err.op == "read")
    ensures err.Errno? && !err.timeout ==> (refused <==> err.code == ECONNREFUSED)
    ensures err.Other? ==> !refused
    ensures refused ==> !IsTimeout(err) && (err.OpError? || err.Errno?)
  {
    if err == Nil then false
    else if IsTimeout(err) then false
    else
      match err
      case OpError(op, _) =>
        if op == "dial" then false
        else if op == "read" then true
        else false
      case Errno(code, _) =>
        if code == ECONNREFUSED then true else false
      case _ => false
  }
}
