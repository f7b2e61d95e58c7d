/**
 * The home page's distribution of agent events: whenever the chat messages
 * change, the agent-event annotations of the last message that have not yet
 * been handed out (those at or after a high-water mark,
 * `previousAgentEventCount`) are appended, in order, to the store named by
 * each event's `workflowName`; then the mark moves. Submitting a new
 * request resets the mark to 0.
 */
module AgentEventRouting {
  import opened Workflow
  import opened AgentStore

  /** A message annotation: agent-event data, or any other annotation type
      (sources, tool calls, ...), named by its type. */
  datatype Annotation = AgentAnnotation(data: AgentEventData) | OtherAnnotation(kind: string)

  /** A chat message as the effect sees it: its annotations, if it has any. */
  datatype Message = Message(annotations: Option<seq<Annotation>>)

  /** The agent-event data among the annotations, in annotation order. */
  function AgentEvents(anns: seq<Annotation>): (r: seq<AgentEventData>)
    ensures |r| <= |anns|
  {
    if anns == [] then []
    else
      var last := anns[|anns| - 1];
      AgentEvents(anns[..|anns| - 1]) + (if last.AgentAnnotation? then [last.data] else [])
  }

  lemma {:induction false} AgentEventsConcat(a: seq<Annotation>, b: seq<Annotation>)
    ensures AgentEvents(a + b) == AgentEvents(a) + AgentEvents(b)
    decreases |b|
  {
    if b == [] {
      assert a + b == a;
    } else {
      var init, last := b[..|b| - 1], b[|b| - 1];
      var tail := if last.AgentAnnotation? then [last.data] else [];
      AgentEventsConcat(a, init);
      assert (a + b)[..|a + b| - 1] == a + init && (a + b)[|a + b| - 1] == last;
      assert AgentEvents(a + b) == AgentEvents(a + init) + tail;
      assert AgentEvents(b) == AgentEvents(init) + tail;
    }
  }

  /** A single annotation contributes its data when it is agent-event data,
      and nothing otherwise; with AgentEventsConcat this fixes the filter. */
  lemma AgentEventsSingle(d: AgentEventData, kind: string)
    ensures AgentEvents([AgentAnnotation(d)]) == [d]
    ensures AgentEvents([OtherAnnotation(kind)]) == []
  {
    assert [AgentAnnotation(d)][..0] == [];
    assert [OtherAnnotation(kind)][..0] == [];
  }

  /** Agent-event data is handed on exactly when it is among the
      annotations. */
  lemma {:induction false} AgentEventsMembers(anns: seq<Annotation>, d: AgentEventData)
    ensures d in AgentEvents(anns) <==> AgentAnnotation(d) in anns
  {
    if anns != [] {
      AgentEventsMembers(anns[..|anns| - 1], d);
      assert anns == anns[..|anns| - 1] + [anns[|anns| - 1]];
    }
  }

  /** The annotations of the last message; None when there is no message or
      the last one has none. */
  function LastAnnotations(messages: seq<Message>): (r: Option<seq<Annotation>>)
    ensures r.Some? <==> messages != [] && messages[|messages| - 1].annotations.Some?
    ensures r.Some? ==> r == messages[|messages| - 1].annotations
  {
    if messages == [] then None else messages[|messages| - 1].annotations
  }

  /** The agent events not yet handed out: those at index `mark` and later,
      and none unless there are more agent events than `mark`. */
  function NewEventsIn(anns: seq<Annotation>, mark: nat): (r: seq<AgentEventData>)
    ensures |AgentEvents(anns)| <= mark ==> r == []
    ensures |AgentEvents(anns)| > mark ==> r == AgentEvents(anns)[mark..]
  {
    var agentEvents := AgentEvents(anns);
    if |agentEvents| > mark then agentEvents[mark..] else []
  }

  /** What one run of the effect hands out. */
  function NewAgentEvents(messages: seq<Message>, mark: nat): (r: seq<AgentEventData>)
    ensures LastAnnotations(messages).None? ==> r == []
    ensures LastAnnotations(messages).Some? ==> r == NewEventsIn(LastAnnotations(messages).value, mark)
  {
    match LastAnnotations(messages)
    case None => []
    case Some(anns) => NewEventsIn(anns, mark)
  }

  /** How the mark moves after handing events out: to the number of all
      annotations of the message (as the page does) or to the number of its
      agent events. */
  datatype MarkRule = AnnotationCount | AgentEventCount

  /** The mark after one run of the effect: unchanged unless new agent
      events were handed out. */
  function MarkAfter(rule: MarkRule, anns: seq<Annotation>, mark: nat): (m: nat)
    ensures |AgentEvents(anns)| <= mark ==> m == mark
    ensures |AgentEvents(anns)| > mark && rule.AnnotationCount? ==> m == |anns|
    ensures |AgentEvents(anns)| > mark && rule.AgentEventCount? ==> m == |AgentEvents(anns)|
  {
    if |AgentEvents(anns)| > mark then
      match rule
      case AnnotationCount => |anns|
      case AgentEventCount => |AgentEvents(anns)|
    else mark
  }

  /** The mark after one run of the effect on `messages`. It never moves
      back, and it moves exactly when that run hands events out. */
  function NextMark(rule: MarkRule, messages: seq<Message>, mark: nat): (m: nat)
    ensures mark <= m
    ensures m == mark <==> NewAgentEvents(messages, mark) == []
  {
    match LastAnnotations(messages)
    case None => mark
    case Some(anns) => MarkAfter(rule, anns, mark)
  }

  /** The events among `events` addressed to the store called `name`, in order. */
  function RoutedTo(events: seq<AgentEventData>, name: string): (r: seq<AgentEventData>)
    ensures |r| <= |events|
    ensures forall k :: 0 <= k < |r| ==> r[k].workflowName == name
  {
    if events == [] then []
    else
      var last := events[|events| - 1];
      RoutedTo(events[..|events| - 1], name) + (if last.workflowName == name then [last] else [])
  }

  /** An event reaches a store exactly when it is among the new events and
      names that store. */
  lemma {:induction false} RoutedToMembers(events: seq<AgentEventData>, name: string, e: AgentEventData)
    ensures e in RoutedTo(events, name) <==> e in events && e.workflowName == name
  {
    if events != [] {
      RoutedToMembers(events[..|events| - 1], name, e);
      assert events == events[..|events| - 1] + [events[|events| - 1]];
    }
  }

  /** Routing a batch in two parts gives each store the first part's events
      for it followed by the second part's, so arrival order is kept. */
  lemma {:induction false} RoutedToConcat(a: seq<AgentEventData>, b: seq<AgentEventData>, name: string)
    ensures RoutedTo(a + b, name) == RoutedTo(a, name) + RoutedTo(b, name)
    decreases |b|
  {
    if b == [] {
      assert a + b == a;
    } else {
      var init, last := b[..|b| - 1], b[|b| - 1];
      RoutedToConcat(a, init, name);
      assert (a + b)[..|a + b| - 1] == a + init && (a + b)[|a + b| - 1] == last;
    }
  }

  /** Right after the effect has moved the mark, running it again on the
      same messages hands out nothing, under either rule: no event reaches a
      store twice through a re-render. */
  lemma {:induction false} RerunHandsOutNothing(rule: MarkRule, messages: seq<Message>, mark: nat)
    ensures NewAgentEvents(messages, NextMark(rule, messages, mark)) == []
  {
  }

  /** The page's state that the effect reads and writes. */
  class Home {
    var previousAgentEventCount: nat

    constructor ()
      ensures previousAgentEventCount == 0
    {
      previousAgentEventCount := 0;
    }

    /** `handleAgentSubmit`: a new request starts counting from 0. */
    method HandleAgentSubmit()
      modifies this
      ensures previousAgentEventCount == 0
    {
      previousAgentEventCount := 0;
    }

    /** The distribution effect: hands each new agent event, in order, to the
        store its `workflowName` names (dropping it if there is none), and
        moves the mark to the last message's annotation count. */
    method DistributeAgentEvents(stores: Stores, messages: seq<Message>)
      requires stores.Valid()
      modifies this, stores.byName.Values
      ensures previousAgentEventCount == NextMark(AnnotationCount, messages, old(previousAgentEventCount))
      ensures stores.Contents() == Route(old(stores.Contents()), NewAgentEvents(messages, old(previousAgentEventCount)))
    {
      if messages == [] {
        return;
      }
      var lastMessage := messages[|messages| - 1];
      if lastMessage.annotations.None? {
        return;
      }
      var annotations := lastMessage.annotations.value;
      var agentEventData := AgentEvents(annotations);
      if |agentEventData| > previousAgentEventCount {
        var newAgentEvents := agentEventData[previousAgentEventCount..];
        RouteEvents(stores, newAgentEvents);
        previousAgentEventCount := |annotations|;
      }
    }
  }

  /** The stores' contents after appending each event, in order, to the
      store its `workflowName` names, skipping events whose name has no
      store. */
  function Route(c: map<string, seq<AgentEventData>>, events: seq<AgentEventData>)
    : (r: map<string, seq<AgentEventData>>)
    ensures r.Keys == c.Keys
  {
    if events == [] then c
    else
      var before := Route(c, events[..|events| - 1]);
      var e := events[|events| - 1];
      if e.workflowName in before then before[e.workflowName := before[e.workflowName] + [e]]
      else before
  }

  /** Routing leaves the set of stores alone and gives each store, in order,
      exactly the events addressed to it. */
  lemma {:induction false} RouteDelivers(c: map<string, seq<AgentEventData>>, events: seq<AgentEventData>)
    ensures Route(c, events).Keys == c.Keys
    ensures forall n :: n in c ==> Route(c, events)[n] == c[n] + RoutedTo(events, n)
  {
    if events != [] {
      var init := events[..|events| - 1];
      RouteDelivers(c, init);
      forall n | n in c ensures Route(c, events)[n] == c[n] + RoutedTo(events, n) {
        assert Route(c, init)[n] == c[n] + RoutedTo(init, n);
      }
    }
  }

  /** The `forEach` over the new events: each event is appended to the store
      its `workflowName` names, if there is one. */
  method RouteEvents(stores: Stores, events: seq<AgentEventData>)
    requires stores.Separate()
    modifies stores.byName.Values
    ensures stores.Contents() == Route(old(stores.Contents()), events)
  {
    for i := 0 to |events|
      invariant stores.Contents() == Route(old(stores.Contents()), events[..i])
    {
      var event := events[i];
      assert events[..i + 1][..i] == events[..i];
      if event.workflowName in stores.byName {
        stores.AddEvent(event.workflowName, event);
      }
    }
    assert events[..|events|] == events;
  }

  // ----- the mark over successive runs -----

  /** The events handed out over successive runs of the effect, one per
      snapshot of the last message's annotations, starting from `mark` and
      moving it by `rule` after each run. */
  function Delivered(rule: MarkRule, snapshots: seq<seq<Annotation>>, mark: nat): seq<AgentEventData>
    decreases |snapshots|
  {
    if snapshots == [] then []
    else NewEventsIn(snapshots[0], mark) + Delivered(rule, snapshots[1..], MarkAfter(rule, snapshots[0], mark))
  }

  /** Each snapshot extends the previous one: annotations only ever arrive
      at the end of a streaming message. */
  predicate Grows(snapshots: seq<seq<Annotation>>) {
    forall i :: 0 <= i < |snapshots| - 1 ==> snapshots[i] <= snapshots[i + 1]
  }

  /** A message that grows keeps its agent events and adds new ones after them. */
  lemma AgentEventsGrow(a: seq<Annotation>, b: seq<Annotation>)
    requires a <= b
    ensures AgentEvents(a) <= AgentEvents(b)
  {
    assert b == a + b[|a|..];
    AgentEventsConcat(a, b[|a|..]);
  }

  lemma GrowsTail(snapshots: seq<seq<Annotation>>)
    requires snapshots != [] && Grows(snapshots)
    ensures Grows(snapshots[1..])
  {
    var rest := snapshots[1..];
    forall i | 0 <= i < |rest| - 1 ensures rest[i] <= rest[i + 1] {
      assert rest[i] == snapshots[i + 1] && rest[i + 1] == snapshots[i + 2];
    }
  }

  /** One run with the corrected mark, started at or below the agent-event
      count: it hands out the agent events from the mark on and moves the
      mark to their count. */
  lemma AgentEventCountStep(snapshots: seq<seq<Annotation>>, mark: nat)
    requires snapshots != [] && mark <= |AgentEvents(snapshots[0])|
    ensures var first := AgentEvents(snapshots[0]);
            Delivered(AgentEventCount, snapshots, mark) ==
              first[mark..] + Delivered(AgentEventCount, snapshots[1..], |first|)
  {
    var first := AgentEvents(snapshots[0]);
    if |first| == mark {
      assert NewEventsIn(snapshots[0], mark) == [] == first[mark..];
      assert MarkAfter(AgentEventCount, snapshots[0], mark) == |first|;
    } else {
      assert NewEventsIn(snapshots[0], mark) == first[mark..];
      assert MarkAfter(AgentEventCount, snapshots[0], mark) == |first|;
    }
  }

  /** Moving the mark to the agent-event count hands every agent event of a
      growing message out exactly once, in order, skipping none: the events
      before the starting mark followed by everything handed out over the
      runs are exactly the last snapshot's agent events. */
  lemma {:induction false} AgentEventCountDeliversEachOnce(snapshots: seq<seq<Annotation>>, mark: nat)
    requires snapshots != [] && Grows(snapshots)
    requires mark <= |AgentEvents(snapshots[0])|
    ensures AgentEvents(snapshots[0])[..mark] + Delivered(AgentEventCount, snapshots, mark) ==
            AgentEvents(snapshots[|snapshots| - 1])
    decreases |snapshots|
  {
    var first := AgentEvents(snapshots[0]);
    var rest := snapshots[1..];
    AgentEventCountStep(snapshots, mark);
    var later := Delivered(AgentEventCount, rest, |first|);
    if |snapshots| == 1 {
      assert later == [] && first[..|first|] + later == first;
      Splice(first, first, first, later, mark);
    } else {
      GrowsTail(snapshots);
      AgentEventsGrow(snapshots[0], snapshots[1]);
      AgentEventCountDeliversEachOnce(rest, |first|);
      assert rest[|rest| - 1] == snapshots[|snapshots| - 1];
      Splice(first, AgentEvents(rest[0]), AgentEvents(snapshots[|snapshots| - 1]), later, mark);
    }
  }

  /** Sequence bookkeeping for the step above: what was handed out before
      the mark, in this run and in the later runs adds up to the whole. */
  lemma Splice<T>(first: seq<T>, second: seq<T>, whole: seq<T>, later: seq<T>, mark: nat)
    requires mark <= |first| && first <= second
    requires second[..|first|] + later == whole
    ensures first[..mark] + (first[mark..] + later) == whole
  {
    assert second[..|first|] == first;
    assert first[..mark] + (first[mark..] + later) == (first[..mark] + first[mark..]) + later;
    assert first[..mark] + first[mark..] == first;
  }

  /** The page's rule can skip agent events: when the message also carries
      another annotation, the mark runs ahead of the agent-event count, and
      an agent event that arrives later is never handed out. */
  lemma AnnotationCountSkipsLaterEvent()
    ensures var a1 := AgentEventData("Market Research", "Market Analyst", "collecting data");
            var a2 := AgentEventData("Market Research", "Market Analyst", "report ready");
            var s1 := [AgentAnnotation(a1), OtherAnnotation("sources")];
            var s2 := s1 + [AgentAnnotation(a2)];
            && AgentEvents(s2) == [a1, a2]
            && Delivered(AnnotationCount, [s1, s2], 0) == [a1]
            && Delivered(AgentEventCount, [s1, s2], 0) == [a1, a2]
  {
    var a1 := AgentEventData("Market Research", "Market Analyst", "collecting data");
    var a2 := AgentEventData("Market Research", "Market Analyst", "report ready");
    var s1 := [AgentAnnotation(a1), OtherAnnotation("sources")];
    var s2 := s1 + [AgentAnnotation(a2)];
    assert s2[..2] == s1 && s1[..1] == [AgentAnnotation(a1)];
    assert AgentEvents([AgentAnnotation(a1)]) == [a1] by {
      assert [AgentAnnotation(a1)][..0] == [];
    }
    assert AgentEvents(s1) == [a1];
    assert AgentEvents(s2) == [a1, a2];
    var none: seq<seq<Annotation>> := [];
    assert NewEventsIn(s1, 0) == [a1];
    assert [s1, s2][1..] == [s2] && [s2][1..] == none;
    assert Delivered(AnnotationCount, [s2], 2) == NewEventsIn(s2, 2) + Delivered(AnnotationCount, none, 2);
    assert Delivered(AnnotationCount, [s2], 2) == [];
    assert Delivered(AgentEventCount, [s2], 1) == NewEventsIn(s2, 1) + Delivered(AgentEventCount, none, 3);
    assert NewEventsIn(s2, 1) == [a2];
  }
}
