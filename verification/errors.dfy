/**
  The service's error kinds and their translation into JSON-RPC errors.
  Validation failures share one application code, bus failures use another,
  and errors that already are JSON-RPC errors pass through unchanged.
 */
module Errors {
  import opened Results
  import opened JsonRpc

  /** A failure reported by the Linux I2C device, known to the service only through its display text. */
  datatype I2cFault = I2cFault(description: string)

  /** Every way a command can fail. */
  datatype OledError =
    | InvalidCoordinate(coord: string, range: string, value: int)
    | InvalidString(len: nat)
    | InvalidFontSize(font: string)
    | MissingParameter(e: Error)
    | ParseError(e: Error)
    | I2CError(source: I2cFault)
  {
    /** A rejected value in a structurally valid request. */
    predicate IsValidation() {
      InvalidCoordinate? || InvalidString? || InvalidFontSize?
    }

    /** An error that already is a JSON-RPC error. */
    predicate IsPassThrough() {
      MissingParameter? || ParseError?
    }
  }

  /** The application code shared by all validation failures. */
  const ValidationCode: ErrorCode := ServerError(1)

  /** The application code of a bus failure. */
  const BusCode: ErrorCode := ServerError(2)

  /** The fixed message of a bus failure. */
  const BusMessage: Message := Text("I2C device error.")

  /** The error object a caller receives for an error. */
  function ToRpcError(err: OledError): (r: Error)
    ensures err.IsValidation() ==> r.code == ValidationCode && r.data == None
    ensures err.I2CError? ==> r == Error(BusCode, BusMessage, Some(StringValue(err.source.description)))
    ensures err.IsPassThrough() ==> r == err.e
  {
    match err
    case InvalidString(len) =>
      Error(ValidationCode, StringLengthOutOfRange(len), None)
    case InvalidCoordinate(coord, range, value) =>
      Error(ValidationCode, CoordinateOutOfRange(coord, range, value), None)
    case InvalidFontSize(font) =>
      Error(ValidationCode, FontSizeNotAccepted(font), None)
    case I2CError(source) =>
      Error(BusCode, BusMessage, Some(StringValue(source.description)))
    case MissingParameter(e) => e
    case ParseError(e) => e
  }

  /**
    What a caller can tell from an error object with an application code:
    the validation error its message describes, or the bus fault its data holds.
   */
  function Recover(r: Error): Option<OledError> {
    if r.code == ValidationCode then
      match r.message
      case StringLengthOutOfRange(len) => Some(InvalidString(len))
      case CoordinateOutOfRange(coord, range, value) => Some(InvalidCoordinate(coord, range, value))
      case FontSizeNotAccepted(font) => Some(InvalidFontSize(font))
      case Text(_) => None
    else if r.code == BusCode && r.message == BusMessage then
      match r.data
      case Some(StringValue(text)) => Some(I2CError(I2cFault(text)))
      case _ => None
    else None
  }

  /**
    The translation keeps every field of a validation or bus error: the
    message is built from the variant's fields alone, and they can be read
    back from it.
   */
  lemma TranslationKeepsFields(err: OledError)
    requires !err.IsPassThrough()
    ensures Recover(ToRpcError(err)) == Some(err)
  {
  }

  /** Two validation or bus errors are reported alike only if they are the same error. */
  lemma TranslationInjective(a: OledError, b: OledError)
    requires !a.IsPassThrough() && !b.IsPassThrough()
    requires ToRpcError(a) == ToRpcError(b)
    ensures a == b
  {
  }

  /** A missing parameter and a parse failure carrying the same error cannot be told apart. */
  lemma PassThroughKindsIndistinguishable(e: Error)
    ensures ToRpcError(MissingParameter(e)) == ToRpcError(OledError.ParseError(e)) == e
  {
  }

  /**
    The two application codes differ from each other and lie outside the
    range that JSON-RPC 2.0 reserves, so neither collides with a pre-defined code.
   */
  lemma ApplicationCodesDistinct(v: OledError, b: OledError, c: ErrorCode)
    requires v.IsValidation() && b.I2CError?
    requires !c.ServerError?
    ensures CodeNumber(ToRpcError(v).code) == 1 && CodeNumber(ToRpcError(b).code) == 2
    ensures CodeNumber(ToRpcError(v).code) != CodeNumber(c)
    ensures CodeNumber(ToRpcError(b).code) != CodeNumber(c)
    ensures !IsReserved(CodeNumber(ToRpcError(v).code)) && !IsReserved(CodeNumber(ToRpcError(b).code))
  {
  }

  /**
    The invalid-params error of the service's own test passes through with
    code -32602, its message and its data intact.
   */
  lemma InvalidParamsPassThrough(detail: string)
    ensures var e := Error(InvalidParams, Text("invalid params"), Some(StringValue(detail)));
            var r := ToRpcError(MissingParameter(e));
            CodeNumber(r.code) == -32602 && r.message == Text("invalid params") && r.data == Some(StringValue(detail))
  {
  }
}
