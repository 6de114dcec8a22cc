/**
  The JSON-RPC 2.0 error object the service returns to its callers:
  a code, a message and optional data. Codes follow section 5.1 of the
  JSON-RPC 2.0 specification.
 */
module JsonRpc {
  import opened Results

  /** The error codes a response can carry: the five pre-defined ones and application codes. */
  datatype ErrorCode =
    | ParseError
    | InvalidRequest
    | MethodNotFound
    | InvalidParams
    | InternalError
    | ServerError(n: int)

  /** Section 5.1 of JSON-RPC 2.0 reserves -32768..-32000 for pre-defined errors. */
  predicate IsReserved(n: int) {
    -32768 <= n <= -32000
  }

  /** The integer sent on the wire for a code. */
  function CodeNumber(c: ErrorCode): (n: int)
    ensures !c.ServerError? ==> IsReserved(n)
    ensures c.ServerError? ==> n == c.n
  {
    match c
    case ParseError => -32700
    case InvalidRequest => -32600
    case MethodNotFound => -32601
    case InvalidParams => -32602
    case InternalError => -32603
    case ServerError(n) => n
  }

  /** A JSON value: the string values the service builds itself, and any other value carried untouched. */
  datatype Value = StringValue(s: string) | OpaqueValue(id: nat)

  /**
    An error message. Messages the service formats from an error's fields are
    kept as structure rather than rendered text; every other message is `Text`.
   */
  datatype Message =
    | Text(s: string)
    | StringLengthOutOfRange(len: nat)
    | CoordinateOutOfRange(coord: string, range: string, value: int)
    | FontSizeNotAccepted(font: string)

  /** The error object of a JSON-RPC response. */
  datatype Error = Error(code: ErrorCode, message: Message, data: Option<Value>)

  /** Distinct pre-defined codes are sent as distinct numbers. */
  lemma PredefinedCodesDistinct(a: ErrorCode, b: ErrorCode)
    requires !a.ServerError? && !b.ServerError?
    requires a != b
    ensures CodeNumber(a) != CodeNumber(b)
  {
  }
}
