/**
  The bodies of the `write`, `flush` and `clear` methods and of the service
  start-up. The display driver is seen only through the calls made to it,
  recorded as a trace of events; a failed flush ends the process.
 */
module Dispatch {
  import opened Results
  import opened JsonRpc
  import opened Errors
  import opened Validation

  /** The four glyph sets the driver offers. */
  datatype Font = Font6x8 | Font6x12 | Font8x16 | Font12x16

  /** The name a request uses to select a glyph set. */
  function FontName(f: Font): string {
    match f
    case Font6x8 => "6x8"
    case Font6x12 => "6x12"
    case Font8x16 => "8x16"
    case Font12x16 => "12x16"
  }

  /** The glyph set a request's font name selects, if any. */
  function SelectFont(name: string): (r: Option<Font>)
    ensures r.Some? <==> name in {"6x8", "6x12", "8x16", "12x16"}
    ensures r.Some? ==> FontName(r.value) == name
  {
    if name == "6x8" then Some(Font6x8)
    else if name == "6x12" then Some(Font6x12)
    else if name == "8x16" then Some(Font8x16)
    else if name == "12x16" then Some(Font12x16)
    else None
  }

  /** Every glyph set is selected by its own name. */
  lemma SelectFontName(f: Font)
    ensures SelectFont(FontName(f)) == Some(f)
  {
  }

  /**
    One call into the display driver. `Draw` renders `text` in `font` with
    its origin at `(x, y)` into the draw buffer; `Flush` sends the buffer to
    the panel and records whether the bus transfer succeeded.
   */
  datatype Event =
    | Init(ok: bool)
    | Draw(font: Font, x: int, y: int, text: string)
    | Clear
    | Flush(ok: bool)

  /** What a caller observes: a JSON-RPC reply, or the end of the process with an exit status. */
  datatype Outcome = Reply(result: Result<Value, Error>) | Exit(status: int)

  /** The outcome of one command together with the driver calls it made. */
  datatype Handled = Handled(outcome: Outcome, trace: seq<Event>)

  /** The value every successful command returns. */
  const Success: Value := StringValue("success")

  /**
    The error a request that does not deserialize into a `Msg` is answered
    with: always an invalid-params error, whose message and data describe
    what was missing or malformed.
   */
  type ParseFailure = e: Error | e.code == InvalidParams
    witness Error(InvalidParams, Text("invalid params"), None)

  /** A `write` request's parameters: the fields, or the error of a request that did not deserialize. */
  datatype Params = Parsed(m: Msg) | Unparsable(e: ParseFailure)

  /** The `write` method. */
  function Write(p: Params): (h: Handled)
    ensures h.outcome.Reply?
    ensures h.outcome.result.Ok? <==> p.Parsed? && Acceptable(p.m)
    ensures h.outcome.result.Ok? ==> h.outcome.result.value == Success
    ensures p.Unparsable? ==> h.outcome.result == Err(p.e) && h.trace == []
    ensures p.Parsed? && !Acceptable(p.m) ==>
              h.outcome.result == Err(ToRpcError(Validate(p.m).error)) && h.trace == []
    ensures p.Parsed? && Acceptable(p.m) && SelectFont(p.m.fontSize).Some? ==>
              h.trace == [Draw(SelectFont(p.m.fontSize).value, p.m.xCoord, p.m.yCoord, p.m.text)]
    ensures p.Parsed? && SelectFont(p.m.fontSize).None? ==> h.trace == []
  {
    match p
    case Unparsable(e) => Handled(Reply(Err(e)), [])
    case Parsed(m) =>
      match Validate(m)
      case Err(err) => Handled(Reply(Err(ToRpcError(err))), [])
      case Ok(_) =>
        var draws := match SelectFont(m.fontSize)
          case Some(font) => [Draw(font, m.xCoord, m.yCoord, m.text)]
          case None => [];
        Handled(Reply(Ok(Success)), draws)
  }

  /** The driver's result for the flush a command performs: `true` when the bus transfer succeeds. */
  type FlushResult = bool

  /** The `flush` method. */
  function FlushCommand(flushOk: FlushResult): (h: Handled)
    ensures h.trace == [Flush(flushOk)]
    ensures h.outcome == Reply(Ok(Success)) <==> flushOk
    ensures !flushOk ==> h.outcome == Exit(1)
  {
    if flushOk then Handled(Reply(Ok(Success)), [Flush(true)])
    else Handled(Exit(1), [Flush(false)])
  }

  /** The `clear` method: clear the buffer, then flush it. */
  function ClearCommand(flushOk: FlushResult): (h: Handled)
    ensures h.trace == [Clear, Flush(flushOk)]
    ensures h.outcome == Reply(Ok(Success)) <==> flushOk
    ensures !flushOk ==> h.outcome == Exit(1)
  {
    var flushed := FlushCommand(flushOk);
    Handled(flushed.outcome, [Clear] + flushed.trace)
  }

  /** A call a client makes. */
  datatype Call = WriteCall(p: Params) | FlushCall | ClearCall

  /** A call together with the result the bus gives if the call flushes. */
  datatype Step = Step(call: Call, flushOk: FlushResult)

  /** Routes a call to its method. */
  function Handle(s: Step): (h: Handled)
    ensures h.outcome.Exit? <==> !s.call.WriteCall? && !s.flushOk
    ensures h.outcome.Exit? ==> h.outcome.status == 1
    ensures (Flush(true) in h.trace || Flush(false) in h.trace) <==> !s.call.WriteCall?
    ensures Clear in h.trace <==> s.call.ClearCall?
  {
    match s.call
    case WriteCall(p) => Write(p)
    case FlushCall => FlushCommand(s.flushOk)
    case ClearCall => ClearCommand(s.flushOk)
  }

  /** How start-up ends: serving requests, returning an error, or exiting. */
  datatype Startup = Serving | Failed(err: OledError) | Exited(status: int)

  /**
    Service start-up: open the I2C device, initialise the display, flush it.
    A device that cannot be opened is returned as a bus error; a failed
    initialisation or flush ends the process.
   */
  function Boot(device: Result<(), I2cFault>, initOk: bool, flushOk: FlushResult): (r: (Startup, seq<Event>))
    ensures r.0.Serving? <==> device.Ok? && initOk && flushOk
    ensures device.Err? ==> r == (Failed(I2CError(device.error)), [])
    ensures device.Ok? ==> r.1 == if initOk then [Init(true), Flush(flushOk)] else [Init(false)]
    ensures r.0.Exited? ==> r.0.status == 1
  {
    match device
    case Err(fault) => (Failed(I2CError(fault)), [])
    case Ok(_) =>
      if !initOk then (Exited(1), [Init(false)])
      else if !flushOk then (Exited(1), [Init(true), Flush(false)])
      else (Serving, [Init(true), Flush(true)])
  }

  /** A `write` succeeds exactly when the text fits and x is on the panel, whatever the font or y. */
  lemma WriteSucceedsIffAcceptable(m: Msg)
    ensures Write(Parsed(m)).outcome == Reply(Ok(Success)) <==>
              Utf8.ByteLength(m.text) <= MaxTextBytes && 0 <= m.xCoord <= MaxX
  {
  }

  /** A `write` draws exactly once when it succeeds with a known font, and otherwise not at all. */
  lemma WriteDrawsAtMostOnce(p: Params)
    ensures |Write(p).trace| <= 1
    ensures |Write(p).trace| == 1 <==>
              p.Parsed? && Acceptable(p.m) && p.m.fontSize in {"6x8", "6x12", "8x16", "12x16"}
    ensures forall e :: e in Write(p).trace ==> e.Draw?
  {
  }

  /**
    A malformed `write` is answered with the invalid-params code -32602, a
    code of its own, distinct from both the validation and the bus code.
   */
  lemma MalformedWriteHasOwnCode(e: ParseFailure, m: Msg, fault: I2cFault)
    requires !Acceptable(m)
    ensures var code := Write(Unparsable(e)).outcome.result.error.code;
            CodeNumber(code) == -32602
            && CodeNumber(code) != CodeNumber(Write(Parsed(m)).outcome.result.error.code)
            && CodeNumber(code) != CodeNumber(ToRpcError(I2CError(fault)).code)
  {
  }

  /** An unknown font name is not an error: the request succeeds and nothing is drawn. */
  lemma UnknownFontIsSilentNoOp(m: Msg)
    requires Acceptable(m)
    requires m.fontSize !in {"6x8", "6x12", "8x16", "12x16"}
    ensures Write(Parsed(m)) == Handled(Reply(Ok(Success)), [])
  {
  }
}
