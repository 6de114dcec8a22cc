/**
  What the driver calls do to the display, at the level the service can
  observe: the draw buffer holds the draws since the last clear, and the
  panel shows the buffer as it was at the last successful flush.
 */
module Panel {
  import opened Results
  import opened Validation
  import opened Dispatch

  /** The draw buffer and what the panel currently shows. */
  datatype Display = Display(buffer: seq<Event>, shown: seq<Event>)

  /** The blank display: nothing drawn, nothing shown. */
  const Blank := Display([], [])

  /** The effect of one driver call. */
  function Apply(d: Display, e: Event): Display {
    match e
    case Init(_) => d
    case Draw(_, _, _, _) => d.(buffer := d.buffer + [e])
    case Clear => d.(buffer := [])
    case Flush(ok) => if ok then d.(shown := d.buffer) else d
  }

  /** The effect of a sequence of driver calls, in order. */
  function ApplyAll(d: Display, t: seq<Event>): Display
    decreases |t|
  {
    if t == [] then d else ApplyAll(Apply(d, t[0]), t[1..])
  }

  /** A successful `clear` leaves the display blank, so a second one changes nothing. */
  lemma ClearIdempotent(d: Display)
    ensures ApplyAll(d, ClearCommand(true).trace) == Blank
    ensures ApplyAll(ApplyAll(d, ClearCommand(true).trace), ClearCommand(true).trace)
              == ApplyAll(d, ClearCommand(true).trace)
  {
  }

  /** A `write` changes only the buffer: the panel shows nothing new until a flush. */
  lemma WriteNotShownUntilFlush(d: Display, p: Params)
    ensures ApplyAll(d, Write(p).trace).shown == d.shown
  {
  }

  /** A successful `write` followed by a successful `flush` shows the buffer with the new text on top. */
  lemma WriteThenFlushShows(d: Display, m: Msg)
    requires Acceptable(m) && SelectFont(m.fontSize).Some?
    ensures ApplyAll(ApplyAll(d, Write(Parsed(m)).trace), FlushCommand(true).trace).shown
              == d.buffer + [Draw(SelectFont(m.fontSize).value, m.xCoord, m.yCoord, m.text)]
  {
  }

  /** A failed flush leaves the panel as it was; the process then exits. */
  lemma FailedFlushShowsNothingNew(d: Display)
    ensures ApplyAll(d, FlushCommand(false).trace) == d
  {
  }
}
