/** Results and errors shared by every layer of the client. */
module Basics {

  datatype Option<+T> = None | Some(value: T)

  /** The client's error enumeration. The human-readable payloads of `Io`, `Tls`,
      `InvalidDnsName` and `Parse` carry no information that the code branches on. */
  datatype Error =
    | Io
    | Tls
    | InvalidDnsName
    | MailboxInUse(text: string)
    | LoginDelay(text: string)
    | SysTemp(text: string)
    | SysPerm(text: string)
    | ServerError(text: string)
    | AuthFailed(text: string)
    | Parse
    | NotAuthenticated
    | InvalidInput
    | Timeout
    | ConnectionClosed

  datatype Result<+T> = Ok(value: T) | Err(error: Error) {
    predicate IsFailure() { Err? }
    function PropagateFailure<U>(): Result<U> requires Err? { Err(error) }
    function Extract(): T requires Ok? { value }
  }

  /** The errors that mean the connection itself may be gone: the three that the
      batch commands test for. */
  predicate IsIo(e: Error) {
    e.Io? || e.ConnectionClosed? || e.Timeout?
  }

  /** The result is an I/O-class failure, so it says nothing about the server's answer. */
  predicate IsLost<T>(r: Result<T>) {
    r.Err? && IsIo(r.error)
  }

  function Failure<T>(r: Result<T>): Option<Error> { if r.Err? then Some(r.error) else None }

  /** Transient errors, worth another connection. `AuthFailed` is not among them. */
  predicate IsRetryable(e: Error) {
    e.Io? || e.ConnectionClosed? || e.Timeout? || e.SysTemp?
  }

  type Fault = e: Error | IsIo(e) witness Io
}
