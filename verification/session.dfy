/**
  A run of the service: calls execute one at a time, each holding the
  display lock for its whole driver sequence, so the driver sees the
  per-call traces one after another. A failed flush ends the process,
  and no later call is answered.
 */
module Session {
  import opened Results
  import opened JsonRpc
  import opened Validation
  import opened Dispatch

  /** The outcomes of the calls answered so far, and the driver calls made. */
  datatype Run = Run(outcomes: seq<Outcome>, trace: seq<Event>)

  /** Serves calls in lock order until they are exhausted or the process exits. */
  function Serve(steps: seq<Step>): (r: Run)
    ensures |r.outcomes| <= |steps|
    ensures forall i :: 0 <= i < |r.outcomes| ==> r.outcomes[i] == Handle(steps[i]).outcome
    ensures forall i :: 0 <= i < |r.outcomes| - 1 ==> r.outcomes[i].Reply?
    ensures |r.outcomes| < |steps| ==> |r.outcomes| > 0 && r.outcomes[|r.outcomes| - 1].Exit?
    decreases |steps|
  {
    if steps == [] then Run([], [])
    else
      var h := Handle(steps[0]);
      if h.outcome.Exit? then Run([h.outcome], h.trace)
      else
        var rest := Serve(steps[1..]);
        Run([h.outcome] + rest.outcomes, h.trace + rest.trace)
  }

  /** A call that draws: a `write` that passes validation and names a known font. */
  predicate Draws(s: Step) {
    s.call.WriteCall? && s.call.p.Parsed? && Acceptable(s.call.p.m)
    && SelectFont(s.call.p.m.fontSize).Some?
  }

  /** The number of calls among `steps` that draw. */
  function DrawingCalls(steps: seq<Step>): nat {
    if steps == [] then 0 else (if Draws(steps[0]) then 1 else 0) + DrawingCalls(steps[1..])
  }

  /** The number of `Draw` events in a trace. */
  function DrawEvents(t: seq<Event>): nat {
    if t == [] then 0 else (if t[0].Draw? then 1 else 0) + DrawEvents(t[1..])
  }

  lemma {:induction false} DrawEventsAppend(a: seq<Event>, b: seq<Event>)
    ensures DrawEvents(a + b) == DrawEvents(a) + DrawEvents(b)
    decreases |a|
  {
    if a != [] {
      assert (a + b)[1..] == a[1..] + b;
      DrawEventsAppend(a[1..], b);
    } else {
      assert a + b == b;
    }
  }

  /** Each call's trace holds one `Draw` exactly when the call draws. */
  lemma HandleDrawEvents(s: Step)
    ensures DrawEvents(Handle(s).trace) == if Draws(s) then 1 else 0
  {
  }

  /**
    Every answered call that draws is applied exactly once: the panel
    receives as many draws as there were drawing calls, none lost and none
    duplicated.
   */
  lemma {:induction false} ServeDrawsOncePerCall(steps: seq<Step>)
    ensures DrawEvents(Serve(steps).trace) == DrawingCalls(steps[..|Serve(steps).outcomes|])
    decreases |steps|
  {
    if steps != [] {
      var h := Handle(steps[0]);
      HandleDrawEvents(steps[0]);
      var n := |Serve(steps).outcomes|;
      if h.outcome.Exit? {
        assert steps[..n] == [steps[0]];
        assert steps[..n][1..] == [];
      } else {
        var rest := Serve(steps[1..]);
        ServeDrawsOncePerCall(steps[1..]);
        DrawEventsAppend(h.trace, rest.trace);
        assert steps[..n][1..] == steps[1..][..|rest.outcomes|];
      }
    }
  }

  /** Every `Clear` in a trace is immediately followed by a `Flush`. */
  predicate ClearsFlushed(t: seq<Event>) {
    forall i :: 0 <= i < |t| && t[i].Clear? ==> i + 1 < |t| && t[i + 1].Flush?
  }

  lemma ClearsFlushedAppend(a: seq<Event>, b: seq<Event>)
    requires ClearsFlushed(a) && ClearsFlushed(b)
    ensures ClearsFlushed(a + b)
  {
  }

  /** The buffer is never left cleared without being flushed: no draw can slip between a clear and its flush. */
  lemma {:induction false} ServeClearsFlushed(steps: seq<Step>)
    ensures ClearsFlushed(Serve(steps).trace)
    decreases |steps|
  {
    if steps != [] {
      var h := Handle(steps[0]);
      assert ClearsFlushed(h.trace);
      if !h.outcome.Exit? {
        ServeClearsFlushed(steps[1..]);
        ClearsFlushedAppend(h.trace, Serve(steps[1..]).trace);
      }
    }
  }

  /** A failed flush is never answered with success, and no call after it is answered at all. */
  lemma FailedFlushEndsRun(steps: seq<Step>, i: nat)
    requires i < |Serve(steps).outcomes|
    requires !steps[i].call.WriteCall? && !steps[i].flushOk
    ensures Serve(steps).outcomes[i] == Exit(1)
    ensures |Serve(steps).outcomes| == i + 1
  {
  }

  /** No call among `steps` meets a failing flush. */
  predicate NoFailedFlush(steps: seq<Step>) {
    forall i :: 0 <= i < |steps| ==> steps[i].call.WriteCall? || steps[i].flushOk
  }

  /** Calls with no failing flush are all answered, in order. */
  lemma ServeAnswersAll(steps: seq<Step>)
    requires NoFailedFlush(steps)
    ensures |Serve(steps).outcomes| == |steps|
    ensures forall i :: 0 <= i < |steps| ==> Serve(steps).outcomes[i].Reply?
  {
  }

  /** A call that does not end the process is followed by the calls after it. */
  lemma ServeFirst(steps: seq<Step>)
    requires steps != [] && Handle(steps[0]).outcome.Reply?
    ensures Serve(steps) == Run([Handle(steps[0]).outcome] + Serve(steps[1..]).outcomes,
                                Handle(steps[0]).trace + Serve(steps[1..]).trace)
  {
  }

  lemma ConsAppend<T>(a: seq<T>, b: seq<T>)
    requires a != []
    ensures (a + b)[0] == a[0] && (a + b)[1..] == a[1..] + b
  {
  }

  lemma AppendAssociative<T>(a: seq<T>, b: seq<T>, c: seq<T>)
    ensures a + (b + c) == (a + b) + c
  {
  }

  /**
    Serving two batches of calls one after the other is serving their
    concatenation, when the first batch meets no failing flush: every
    call's driver calls form one uninterrupted segment of the trace.
   */
  lemma {:induction false} ServeAppend(a: seq<Step>, b: seq<Step>)
    requires NoFailedFlush(a)
    ensures Serve(a + b) == Run(Serve(a).outcomes + Serve(b).outcomes, Serve(a).trace + Serve(b).trace)
    decreases |a|
  {
    if a == [] {
      assert a + b == b;
    } else {
      var h := Handle(a[0]);
      var ra, rb := Serve(a[1..]), Serve(b);
      ServeFirst(a);
      assert NoFailedFlush(a[1..]) by {
        assert forall i :: 0 <= i < |a[1..]| ==> a[1..][i] == a[i + 1];
      }
      ServeAppend(a[1..], b);
      ConsAppend(a, b);
      ServeFirst(a + b);
      AppendAssociative([h.outcome], ra.outcomes, rb.outcomes);
      AppendAssociative(h.trace, ra.trace, rb.trace);
    }
  }
}
