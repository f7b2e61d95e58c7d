/**
 * The parts of the workflow runtime that the steps of this project touch:
 * the three-way result a step hands back to the engine, the events that
 * appear on a run's output stream, the per-run context (a key/value store
 * plus the stream sink), and the handle of a delegated child run.
 *
 * Forwarding a child's stream into the parent's is the one algorithm here:
 * `ForwardEvents` writes every event that is not a StopEvent, in order, and
 * is specified by the function `Forwarded`.
 */
module Workflow {

  datatype Option<+T> = None | Some(value: T) {
    function GetOr(default: T): T {
      match this
      case Some(v) => v
      case None => default
    }
  }

  /** What a step hands back: the next event, nothing yet (a Python step
      that returns None), or the run's terminal StopEvent. */
  datatype StepResult<+E, +S> = Advance(event: E) | Waiting | Stop(stop: S)

  /** An event as it appears on a run's output stream. `OtherEvent` stands
      for every event class other than StopEvent and AgentRunEvent, named by
      its class; forwarding passes it on untouched. The forwarding filter
      tests the exact class (`type(event) is not StopEvent`), so an instance
      of a subclass of StopEvent is forwarded: it is an `OtherEvent` here,
      and `StopEvent` means exactly that class. */
  datatype StreamEvent =
    | StopEvent(result: string)
    | AgentRunEvent(name: string, msg: string)
    | OtherEvent(kind: string, payload: string)

  /** The values steps store in the context's key/value store. */
  datatype Value = Flag(flag: bool) | Text(text: string)

  /** The per-run context: `ctx.data` and the sink behind
      `ctx.write_event_to_stream`. */
  class Context {
    var data: map<string, Value>
    var stream: seq<StreamEvent>

    constructor ()
      ensures data == map[] && stream == []
    {
      data := map[];
      stream := [];
    }

    method WriteEventToStream(e: StreamEvent)
      modifies this
      ensures stream == old(stream) + [e]
      ensures data == old(data)
    {
      stream := stream + [e];
    }

    method Put(key: string, v: Value)
      modifies this
      ensures data == old(data)[key := v]
      ensures stream == old(stream)
    {
      data := data[key := v];
    }
  }

  /** How a delegated run ends: its awaited result, or the error it raised. */
  datatype Outcome = Completed(result: string) | Raised(error: string)

  /** A child run as the parent sees it: the events its stream yields (up to
      its end, or up to the point where it raised) and how it ends. */
  datatype Handle = Handle(events: seq<StreamEvent>, outcome: Outcome)

  /** The events a parent writes while draining a child's stream: every
      event whose class is not StopEvent, unchanged, in stream order. */
  function Forwarded(s: seq<StreamEvent>): (r: seq<StreamEvent>)
    ensures |r| <= |s|
    ensures forall i :: 0 <= i < |r| ==> !r[i].StopEvent?
  {
    if s == [] then []
    else
      var last := s[|s| - 1];
      Forwarded(s[..|s| - 1]) + (if last.StopEvent? then [] else [last])
  }

  /** Positions of the events that are forwarded, in increasing order. */
  function ForwardedPositions(s: seq<StreamEvent>): seq<nat>
  {
    if s == [] then []
    else
      ForwardedPositions(s[..|s| - 1]) + (if s[|s| - 1].StopEvent? then [] else [|s| - 1])
  }

  /** Forwarding is a filter that keeps order and relabels nothing: the k-th
      forwarded event is the child's event at the k-th non-Stop position,
      positions strictly increase, and every non-Stop position is among them. */
  lemma {:induction false} ForwardedIsOrderedSelection(s: seq<StreamEvent>)
    ensures |ForwardedPositions(s)| == |Forwarded(s)|
    ensures forall k :: 0 <= k < |Forwarded(s)| ==>
              ForwardedPositions(s)[k] < |s| && Forwarded(s)[k] == s[ForwardedPositions(s)[k]]
    ensures forall k, l :: 0 <= k < l < |Forwarded(s)| ==>
              ForwardedPositions(s)[k] < ForwardedPositions(s)[l]
    ensures forall j :: 0 <= j < |s| && !s[j].StopEvent? ==> j in ForwardedPositions(s)
  {
    if s != [] {
      var init := s[..|s| - 1];
      ForwardedIsOrderedSelection(init);
      forall j | 0 <= j < |s| && !s[j].StopEvent?
        ensures j in ForwardedPositions(s)
      {
        if j < |s| - 1 {
          assert init[j] == s[j];
        }
      }
    }
  }

  /** An event reaches the parent exactly when the child yields it and it is
      not a StopEvent. */
  lemma {:induction false} ForwardedMembers(s: seq<StreamEvent>, e: StreamEvent)
    ensures e in Forwarded(s) <==> e in s && !e.StopEvent?
  {
    if s != [] {
      var init := s[..|s| - 1];
      ForwardedMembers(init, e);
      assert s == init + [s[|s| - 1]];
    }
  }

  /** Draining two stream pieces one after the other forwards the
      concatenation of what each piece forwards. */
  lemma {:induction false} ForwardedConcat(a: seq<StreamEvent>, b: seq<StreamEvent>)
    ensures Forwarded(a + b) == Forwarded(a) + Forwarded(b)
    decreases |b|
  {
    if b == [] {
      assert a + b == a;
    } else {
      var bInit := b[..|b| - 1];
      ForwardedConcat(a, bInit);
      assert (a + b)[..|a + b| - 1] == a + bInit;
    }
  }

  /** A stream without StopEvent is forwarded whole. */
  lemma {:induction false} ForwardedKeepsStopFree(s: seq<StreamEvent>)
    requires forall i :: 0 <= i < |s| ==> !s[i].StopEvent?
    ensures Forwarded(s) == s
  {
    if s != [] {
      ForwardedKeepsStopFree(s[..|s| - 1]);
    }
  }

  /** A child that yields e1, e2 and then its StopEvent shows the parent
      exactly e1, e2. */
  lemma ForwardedDropsFinalStop(e1: StreamEvent, e2: StreamEvent, x: string)
    requires !e1.StopEvent? && !e2.StopEvent?
    ensures Forwarded([e1, e2, StopEvent(x)]) == [e1, e2]
  {
    ForwardedConcat([e1, e2], [StopEvent(x)]);
    ForwardedKeepsStopFree([e1, e2]);
    assert [e1, e2] + [StopEvent(x)] == [e1, e2, StopEvent(x)];
    assert Forwarded([StopEvent(x)]) == Forwarded([]) + [];
  }

  /** The `async for` loop of the delegation helpers: each event the child
      yields is written to the parent's stream unless its class is StopEvent. */
  method ForwardEvents(ctx: Context, events: seq<StreamEvent>)
    modifies ctx
    ensures ctx.stream == old(ctx.stream) + Forwarded(events)
    ensures ctx.data == old(ctx.data)
  {
    for i := 0 to |events|
      invariant ctx.stream == old(ctx.stream) + Forwarded(events[..i])
      invariant ctx.data == old(ctx.data)
    {
      var event := events[i];
      if !event.StopEvent? {
        ctx.WriteEventToStream(event);
      }
      assert events[..i + 1][..i] == events[..i];
    }
    assert events[..|events|] == events;
  }
}
