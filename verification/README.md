# peach-oled command layer, modelled in Dafny

peach-oled is a JSON-RPC service that drives a small I2C OLED panel. Clients
call `write` (draw a text string at a pixel coordinate in one of four glyph
sizes), `clear` and `flush`. This project models the part of the service
that makes decisions:

- **Validation** (`validation.dfy`). `validate` checks a `write` request. It
  checks the text's UTF-8 byte length first (at most 21), then `x >= 0`,
  then `x < 129`. The first failed check decides the error. Rust's
  `String::len()` counts bytes, so `utf8.dfy` gives the UTF-8 encoding of a
  string (section 3 of RFC 3629), and the validator measures that.
- **Dispatch** (`dispatch.dfy`). These are the bodies of the `write`,
  `flush` and `clear` methods and of start-up. Each method is a pure
  function from its request to an outcome and the driver calls it makes.
  The outcome is either a JSON-RPC reply or `Exit(1)`, which stands for
  `process::exit(1)`. The driver calls are a trace of `Init`,
  `Draw(font, x, y, text)`, `Clear` and `Flush(ok)` events. The result of a
  bus transfer is an input to the model.
- **Error translation** (`errors.dfy`, `jsonrpc.dfy`). This maps each
  `OledError` to a JSON-RPC error object: a code, a message and optional
  data. Validation errors share application code 1 and have no data. A
  bus error has code 2, the message "I2C device error." and the fault text
  as data. Missing-parameter and parse errors are already JSON-RPC errors,
  and they pass through unchanged. Codes follow section 5.1 of the
  JSON-RPC 2.0 specification.
- **Serving** (`session.dfy`). The display sits behind one mutex, so calls
  run one at a time, each as one uninterrupted segment of driver calls. A
  failed flush ends the process.
- **Display state** (`panel.dfy`). This is an abstract view of the
  driver's draw buffer and of what the panel shows. It is used to state
  what `write`, `flush` and `clear` do to what the panel shows.

The model follows the code as written, including these behaviours that a
reader might not expect:

- The code does not check `y_coord`: `Validation.ValidateIgnoresYAndFont`
  shows that any y, on the panel or off it, leaves the result unchanged.
- The code treats an unknown `font_size` as a successful no-op, not as a
  validation error. See `Dispatch.UnknownFontIsSilentNoOp`.
- The code stops at the first violation and does not collect all of them.
- The code never produces `InvalidFontSize`.
- A failed flush inside `flush` or `clear` ends the process. It is never
  reported to the caller as a bus error.

## Model

| member | source | states |
|---|---|---|
| Utf8.EncodeScalar | src/lib.rs:35 | each character of a `String` is stored in the shortest UTF-8 form: one byte exactly for ASCII, three or more only from U+0800, four only from U+10000; the lead byte announces the length, the others are continuation bytes, and decoding gives back the character |
| Utf8.ByteLength | src/lib.rs:41-43 | `len()` of the text: at least one and at most four bytes per character, and exactly one per character iff the text is all ASCII |
| Utf8.Encode | src/lib.rs:41-43 | the byte length that `len()` reports lies between the character count and four times it, and equals the character count exactly when every character is ASCII |
| Utf8.EncodeAppend | src/lib.rs:41-43 | the byte length of a concatenation is the sum of the byte lengths |
| Utf8.NonAsciiAtLeastTwoBytes | src/lib.rs:41-43 | text with no ASCII character takes at least two bytes per character |
| JsonRpc.CodeNumber | src/lib.rs:200-233 | the five pre-defined codes are sent as numbers in the range JSON-RPC 2.0 reserves (-32603 internal error, -32602 invalid params among them); an application code is sent as its own number |
| JsonRpc.PredefinedCodesDistinct | src/lib.rs:200-233 | distinct pre-defined codes are distinct numbers |
| Errors.ToRpcError | src/error.rs:34-68 | total over the six kinds; validation kinds get code 1 and no data; an I2C error gets code 2, "I2C device error." and the fault text as data; missing-parameter and parse errors are returned unchanged |
| Errors.TranslationKeepsFields | src/error.rs:37-63 | for validation and bus errors, the message and data carry exactly the variant's fields; the original error can be read back from the error object |
| Errors.TranslationInjective | src/error.rs:37-63 | two different validation or bus errors never produce the same error object |
| Errors.PassThroughKindsIndistinguishable | src/error.rs:64-65 | a missing parameter and a parse failure carrying the same error produce the same error object, and that object is the carried error |
| Errors.ApplicationCodesDistinct | src/error.rs:36-63 | the validation code (1) differs from the bus code (2), and neither is a reserved JSON-RPC code |
| Errors.InvalidParamsPassThrough | src/lib.rs:210-235 | the test's invalid-params error comes out with code -32602, message "invalid params" and its data intact |
| Validation.Validate | src/lib.rs:39-66 | accepts iff the text has at most 21 UTF-8 bytes and 0 <= x <= 128; an overlong text reports its byte length; otherwise an x outside the range reports ("x", "0-128", x); never reports a font error |
| Validation.ValidateIgnoresYAndFont | src/lib.rs:39-66 | y and the font name never change the result |
| Validation.LengthCheckedFirst | src/lib.rs:40-45 | an overlong text is reported as such whatever x is |
| Validation.OutOfRangeXReportsSamePayload | src/lib.rs:47-63 | x below 0 and x above 128 report the same coordinate name and range, each with its own value |
| Validation.ManyCharactersRejected | src/lib.rs:40-45 | more than 21 characters is always rejected for length |
| Validation.AsciiTextMeasuredInCharacters | src/lib.rs:40-45 | for ASCII text, up to 21 characters pass the length check |
| Validation.NonAsciiTextRejectedEarly | src/lib.rs:40-45 | 11 or more non-ASCII characters are already rejected for length |
| Dispatch.SelectFont | src/lib.rs:102-126 | exactly the four names "6x8", "6x12", "8x16" and "12x16" select a glyph set, and the set selected has that name |
| Dispatch.SelectFontName | src/lib.rs:102-126 | every glyph set is selected by its own name |
| Dispatch.Write | src/lib.rs:94-129 | never exits; succeeds with "success" iff the request parsed and passed validation; a parse or validation failure returns the (translated) error with no driver call; a valid request with a known font draws once at (x, y); an unknown font draws nothing |
| Dispatch.FlushCommand | src/lib.rs:133-141 | makes exactly one flush; replies "success" iff it succeeded; otherwise exits with status 1 |
| Dispatch.ClearCommand | src/lib.rs:145-155 | clears, then flushes; replies "success" iff the flush succeeded; otherwise exits with status 1 |
| Dispatch.Handle | src/lib.rs:94-155 | only a failed flush or clear ends the process; only flush and clear flush; only clear clears |
| Dispatch.Boot | src/lib.rs:72-86 | serves only when the device opens and both initialisation and the first flush succeed; a device that fails to open is returned as an I2C error before any driver call; a failed initialisation or flush exits with status 1 |
| Dispatch.WriteSucceedsIffAcceptable | src/lib.rs:96-128 | a parsed `write` replies "success" iff the text fits and x is on the panel, whatever the font and y |
| Dispatch.WriteDrawsAtMostOnce | src/lib.rs:102-126 | a `write` makes at most one driver call, always a draw; it makes one iff it succeeds with a known font |
| Dispatch.MalformedWriteHasOwnCode | src/lib.rs:96-98 | a `write` whose parameters do not deserialize is answered with code -32602, which differs from the code of any validation failure and from the bus code |
| Dispatch.UnknownFontIsSilentNoOp | src/lib.rs:102-128 | a valid request with an unknown font replies "success" and makes no driver call |
| Session.Serve | src/lib.rs:88-155 | calls are answered in order, each with its own method's outcome; only the last answered call can have ended the process; a run stops early only at an exit |
| Session.HandleDrawEvents | src/lib.rs:94-155 | a call leaves one draw in the trace iff it is a successful `write` with a known font |
| Session.ServeDrawsOncePerCall | src/lib.rs:88-155 | the trace of a run has exactly as many draws as there were answered drawing calls |
| Session.ServeClearsFlushed | src/lib.rs:145-155 | in every run, each clear is immediately followed by a flush |
| Session.FailedFlushEndsRun | src/lib.rs:133-155 | a flush or clear whose flush fails is answered by exit 1 and is the last call answered |
| Session.ServeAnswersAll | src/lib.rs:94-155 | when no flush fails, every call is answered with a reply |
| Session.ServeAppend | src/lib.rs:88-155 | serving two batches in turn is serving their concatenation: each call's driver calls form one unbroken segment of the trace |
| Panel.ClearIdempotent | src/lib.rs:145-155 | a successful clear leaves the display blank, so clearing twice looks the same as clearing once |
| Panel.WriteNotShownUntilFlush | src/lib.rs:100-128 | a `write` never changes what the panel shows |
| Panel.WriteThenFlushShows | src/lib.rs:102-141 | a successful `write` followed by a successful `flush` shows the earlier buffer with the new text drawn last |
| Panel.FailedFlushShowsNothingNew | src/lib.rs:133-141 | a failed flush leaves the display unchanged |

## Left out

- Parsing the request (`params.parse()`, src/lib.rs:96-97): modelled as either a parsed `Msg` or the invalid-params error of the failed parse. That error's message and data are produced by the JSON-RPC library and are left unconstrained. Serde's i32 range check appears only as the `i32` type of the coordinates.
- The mutex (src/lib.rs:88-89, 100, 134, 146): modelled as calls that run one after another. Which caller gets the lock first is not modelled.
- Opening `/dev/i2c-1` and display initialisation are I/O. Their results are inputs to `Dispatch.Boot`. What `init` does to the panel is not modelled.
- Glyph rasterisation and `translate` belong to the display driver library. A `Draw` event records the font, origin and text without computing pixels.
- Panel.FailedFlushShowsNothingNew: that a failed flush leaves what the panel shows unchanged is an assumption of the display model; the code only exits after a failed flush (src/lib.rs:136-139), and a bus transfer that fails part-way may have updated part of the panel.
- The panel state in `panel.dfy` assumes the driver semantics described above: a draw adds to the buffer, clear empties it, and a successful flush shows it. The driver's source is not part of this model.
- The HTTP server, the CORS allow-list, the bind address (src/lib.rs:157-166) and logging: transport and I/O.
- Message text: `format!` rendering is not modelled. Messages are structured values that carry the formatted fields.
- JsonRpc.CodeNumber: `ServerError` carries an unbounded integer rather than an `i64`. The only application codes the service uses are 1 and 2.
- The error value of a failed flush is discarded by the code, so only success or failure is modelled.
- Calls to an unknown method name are answered by the JSON-RPC framework, not by this code.
- src/main.rs is a hardware demo with no decisions in it.
