/**
  The checks a `write` request must pass before the display is touched.
  Only the text's byte length and the x coordinate are checked, in that
  order, and the first failed check decides the error.
 */
module Validation {
  import opened Results
  import Utf8
  import opened Errors

  /** Rust's `i32`: the request's coordinates are deserialized into this range. */
  type i32 = n: int | -0x8000_0000 <= n < 0x8000_0000

  /** The parameters of a `write` request. */
  datatype Msg = Msg(xCoord: i32, yCoord: i32, text: string, fontSize: string)

  /** The longest text, in UTF-8 bytes, a request may carry. */
  const MaxTextBytes: nat := 21

  /** The largest accepted x coordinate; the smallest is 0. */
  const MaxX: int := 128

  /** The range descriptor reported with a rejected x coordinate. */
  const XRange: string := "0-128"

  /** The constraints the service actually enforces on a request. */
  predicate Acceptable(m: Msg) {
    Utf8.ByteLength(m.text) <= MaxTextBytes && 0 <= m.xCoord <= MaxX
  }

  /** Checks a request; the error names the first violated constraint. */
  function Validate(m: Msg): (r: Result<(), OledError>)
    ensures r.Ok? <==> Acceptable(m)
    ensures Utf8.ByteLength(m.text) > MaxTextBytes ==> r == Err(InvalidString(Utf8.ByteLength(m.text)))
    ensures Utf8.ByteLength(m.text) <= MaxTextBytes && !(0 <= m.xCoord <= MaxX) ==>
              r == Err(InvalidCoordinate("x", XRange, m.xCoord))
    ensures r.Err? ==> r.error.IsValidation() && !r.error.InvalidFontSize?
  {
    var len := Utf8.ByteLength(m.text);
    if !(len <= 21) then Err(InvalidString(len))
    else if !(m.xCoord >= 0) then Err(InvalidCoordinate("x", "0-128", m.xCoord))
    else if !(m.xCoord < 129) then Err(InvalidCoordinate("x", "0-128", m.xCoord))
    else Ok(())
  }

  /** Neither the y coordinate nor the font name ever affects validation. */
  lemma ValidateIgnoresYAndFont(m: Msg, y: i32, font: string)
    ensures Validate(m.(yCoord := y, fontSize := font)) == Validate(m)
  {
  }

  /** Too long a text is reported as such whatever the x coordinate. */
  lemma LengthCheckedFirst(m: Msg, x: i32)
    requires Utf8.ByteLength(m.text) > MaxTextBytes
    ensures Validate(m.(xCoord := x)) == Err(InvalidString(Utf8.ByteLength(m.text)))
  {
  }

  /** Both sides of the x range report the same payload: coordinate name, range and value. */
  lemma OutOfRangeXReportsSamePayload(m: Msg, x1: i32, x2: i32)
    requires Utf8.ByteLength(m.text) <= MaxTextBytes
    requires x1 < 0 && x2 > MaxX
    ensures Validate(m.(xCoord := x1)).error == InvalidCoordinate("x", XRange, x1)
    ensures Validate(m.(xCoord := x2)).error == InvalidCoordinate("x", XRange, x2)
  {
  }

  /** More than 21 characters is always too long, since every character takes at least one byte. */
  lemma ManyCharactersRejected(m: Msg)
    requires |m.text| > MaxTextBytes
    ensures Validate(m).Err? && Validate(m).error.InvalidString?
  {
  }

  /** ASCII text is measured in characters: up to 21 of them pass the length check. */
  lemma AsciiTextMeasuredInCharacters(m: Msg)
    requires forall i :: 0 <= i < |m.text| ==> Utf8.IsAscii(m.text[i])
    ensures Validate(m).Ok? <==> |m.text| <= MaxTextBytes && 0 <= m.xCoord <= MaxX
  {
  }

  /** Eleven or more characters outside ASCII exceed the limit though they are far fewer than 21. */
  lemma NonAsciiTextRejectedEarly(m: Msg)
    requires |m.text| >= 11
    requires forall i :: 0 <= i < |m.text| ==> !Utf8.IsAscii(m.text[i])
    ensures Validate(m).Err? && Validate(m).error.InvalidString?
  {
    Utf8.NonAsciiAtLeastTwoBytes(m.text);
  }
}
