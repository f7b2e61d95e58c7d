/**
 * The podcast-production workflow: the first critique event, the critique
 * transition (iteration cap, satisfied critic, revise), the mapping of a
 * script to the (speaker, text) pairs handed to speech synthesis, and the
 * agent-running helper with its error report. The script writer's and the
 * critic's answers are parameters.
 */
module PodcastWorkflow {
  import opened Workflow
  import opened Text

  datatype PodcastSegment = PodcastSegment(speaker: string, text: string)

  datatype PodcastScript = PodcastScript(
    title: string,
    description: string,
    segments: seq<PodcastSegment>,
    keyPoints: seq<string>,
    estimatedDuration: string,
    targetAudience: string)

  datatype ScriptCritique = ScriptCritique(
    satisfied: bool,
    overallRating: int,
    strengths: seq<string>,
    weaknesses: seq<string>,
    specificFeedback: map<string, seq<string>>,
    improvementSuggestions: seq<string>)

  /** The events of the podcast workflow. Research and outline are JSON
      objects in the source; here they are their serialised text. */
  datatype Event =
    | StartEvent(input: string)
    | GenerateOutlineEvent(research: string)
    | WriteScriptEvent(outline: string)
    | CritiqueScriptEvent(script: PodcastScript, iteration: int)
    | ReviseScriptEvent(script: PodcastScript, critique: ScriptCritique)
    | GenerateAudioEvent(script: PodcastScript)

  /** The `max_iterations` a PodcastWorkflow is built with unless told otherwise. */
  const DefaultMaxIterations: int := 3

  /** The names of the steps an event is dispatched to, from the steps'
      parameter annotations. */
  function AcceptingSteps(e: Event): set<string> {
    match e
    case StartEvent(_) => {"start"}
    case GenerateOutlineEvent(_) => {"generate_outline"}
    case WriteScriptEvent(_) => {"generate_script"}
    case CritiqueScriptEvent(_, _) => {"critique_script"}
    case ReviseScriptEvent(_, _) => {}
    case GenerateAudioEvent(_) => {"generate_audio"}
  }

  /** `generate_script`: the written script goes to its first critique, at
      iteration 0. */
  function GenerateScript(script: PodcastScript): (e: Event)
    ensures e.CritiqueScriptEvent? && e.script == script && e.iteration == 0
  {
    CritiqueScriptEvent(script, 0)
  }

  /** Whether `critique_script` consults the critic: only below the cap. */
  predicate ConsultsCritic(iteration: int, maxIterations: int) {
    iteration < maxIterations
  }

  /** The event `critique_script` returns. At or past the cap the script goes
      to audio whatever the critic would say; below it, a satisfied critique
      sends it to audio and any other asks for a revision with that critique.
      Exactly one event, and the script in it is the one critiqued. */
  function CritiqueOutcome(script: PodcastScript, iteration: int, maxIterations: int,
                           critique: ScriptCritique): (e: Event)
    ensures e.GenerateAudioEvent? <==> !ConsultsCritic(iteration, maxIterations) || critique.satisfied
    ensures e.ReviseScriptEvent? <==> ConsultsCritic(iteration, maxIterations) && !critique.satisfied
    ensures e.GenerateAudioEvent? || e.ReviseScriptEvent?
    ensures e.script == script
    ensures e.ReviseScriptEvent? ==> e.critique == critique
  {
    if !ConsultsCritic(iteration, maxIterations) then GenerateAudioEvent(script)
    else if critique.satisfied then GenerateAudioEvent(script)
    else ReviseScriptEvent(script, critique)
  }

  /** The progress message of one critic consultation: it opens with the
      1-based number of the consultation and closes with the rating out of
      10. */
  function CritiqueMessage(iteration: int, rating: int): (m: string)
    ensures |m| >= 10 + |IntToDecimal(iteration + 1)| + 3
    ensures m[..10] == "Critique #"
    ensures m[10..10 + |IntToDecimal(iteration + 1)|] == IntToDecimal(iteration + 1)
    ensures m[|m| - 3..] == "/10"
  {
    var n := IntToDecimal(iteration + 1);
    MessageParts("Critique #", n, ": Rating ", IntToDecimal(rating), "/10");
    "Critique #" + n + ": Rating " + IntToDecimal(rating) + "/10"
  }

  /** Where the first, second and last pieces of a five-piece message sit. */
  lemma MessageParts(a: string, b: string, c: string, d: string, e: string)
    ensures var m := a + b + c + d + e;
            && |m| == |a| + |b| + |c| + |d| + |e|
            && m[..|a|] == a && m[|a|..|a| + |b|] == b && m[|m| - |e|..] == e
  {
    var m := a + b + c + d + e;
    assert m == a + (b + (c + d + e));
  }

  /** What `critique_script` writes to the stream: one message naming the
      critic when it consults the critic, nothing at or past the cap. */
  function CritiqueProgress(iteration: int, maxIterations: int, criticName: string,
                            critique: ScriptCritique): (w: seq<StreamEvent>)
    ensures |w| == if ConsultsCritic(iteration, maxIterations) then 1 else 0
    ensures forall k :: 0 <= k < |w| ==>
              w[k] == AgentRunEvent(criticName, CritiqueMessage(iteration, critique.overallRating))
  {
    if ConsultsCritic(iteration, maxIterations)
    then [AgentRunEvent(criticName, CritiqueMessage(iteration, critique.overallRating))]
    else []
  }

  /** At or past the cap the critic's verdict makes no difference: same event,
      nothing written. */
  lemma CapIgnoresCritic(script: PodcastScript, iteration: int, maxIterations: int,
                         c1: ScriptCritique, c2: ScriptCritique, criticName: string)
    requires iteration >= maxIterations
    ensures CritiqueOutcome(script, iteration, maxIterations, c1) == GenerateAudioEvent(script)
    ensures CritiqueOutcome(script, iteration, maxIterations, c1) ==
            CritiqueOutcome(script, iteration, maxIterations, c2)
    ensures CritiqueProgress(iteration, maxIterations, criticName, c1) == []
  {
  }

  /** The revise branch returns an event no step accepts, so a run that takes
      it makes no further progress. */
  lemma ReviseIsNeverDispatched(script: PodcastScript, iteration: int, maxIterations: int,
                                critique: ScriptCritique)
    requires ConsultsCritic(iteration, maxIterations) && !critique.satisfied
    ensures AcceptingSteps(CritiqueOutcome(script, iteration, maxIterations, critique)) == {}
  {
  }

  /** The first critique of a freshly written script, with the default cap,
      consults the critic and reports itself as critique number 1. */
  lemma FirstCritiqueIsNumberOne(script: PodcastScript, criticName: string, critique: ScriptCritique)
    ensures var ev := GenerateScript(script);
            CritiqueProgress(ev.iteration, DefaultMaxIterations, criticName, critique) ==
            [AgentRunEvent(criticName, "Critique #1: Rating " + IntToDecimal(critique.overallRating) + "/10")]
  {
    assert IntToDecimal(1) == NatToDecimal(1) == ['1'];
    assert "Critique #" + "1" + ": Rating " == "Critique #1: Rating ";
  }

  /** The rating in the progress message reads back as the critic's rating. */
  lemma CritiqueMessageShowsRating(iteration: int, rating: nat)
    ensures var digits := NatToDecimal(rating);
            CritiqueMessage(iteration, rating) ==
              "Critique #" + IntToDecimal(iteration + 1) + ": Rating " + digits + "/10"
            && DecimalValue(digits) == rating
  {
  }

  /** `critique_script`: writes the progress message when it consults the
      critic, then returns the transition's event; the context's key/value
      store is left alone. */
  method CritiqueScript(ctx: Context, ev: Event, maxIterations: int, criticName: string,
                        critique: ScriptCritique) returns (out: Event)
    requires ev.CritiqueScriptEvent?
    modifies ctx
    ensures out == CritiqueOutcome(ev.script, ev.iteration, maxIterations, critique)
    ensures ctx.stream == old(ctx.stream) + CritiqueProgress(ev.iteration, maxIterations, criticName, critique)
    ensures ctx.data == old(ctx.data)
  {
    if ev.iteration >= maxIterations {
      return GenerateAudioEvent(ev.script);
    }
    ctx.WriteEventToStream(AgentRunEvent(criticName, CritiqueMessage(ev.iteration, critique.overallRating)));
    if critique.satisfied {
      return GenerateAudioEvent(ev.script);
    }
    return ReviseScriptEvent(ev.script, critique);
  }

  /** The (speaker, text) pairs handed to speech synthesis: one per script
      segment, in script order. */
  function AudioSegments(script: PodcastScript): (pairs: seq<(string, string)>)
    ensures |pairs| == |script.segments|
    ensures forall k :: 0 <= k < |pairs| ==>
              pairs[k] == (script.segments[k].speaker, script.segments[k].text)
  {
    seq(|script.segments|, k requires 0 <= k < |script.segments| =>
      (script.segments[k].speaker, script.segments[k].text))
  }

  /** Segments back from (speaker, text) pairs. */
  function SegmentsOf(pairs: seq<(string, string)>): seq<PodcastSegment> {
    if pairs == [] then []
    else SegmentsOf(pairs[..|pairs| - 1]) + [PodcastSegment(pairs[|pairs| - 1].0, pairs[|pairs| - 1].1)]
  }

  /** The pairs lose nothing of the segments: rebuilding segments from them
      gives back the script's segments, in order. */
  lemma {:induction false} AudioSegmentsRoundTrip(script: PodcastScript)
    ensures SegmentsOf(AudioSegments(script)) == script.segments
    decreases |script.segments|
  {
    var segs := script.segments;
    if segs != [] {
      var shorter := script.(segments := segs[..|segs| - 1]);
      AudioSegmentsRoundTrip(shorter);
      assert AudioSegments(script)[..|segs| - 1] == AudioSegments(shorter);
      assert segs == segs[..|segs| - 1] + [segs[|segs| - 1]];
    }
  }

  /** `run_agent`: forwards the agent's non-Stop events; if the agent raised,
      writes exactly one error event naming the agent and raises the same
      error again; otherwise returns the agent's result. */
  method RunAgent(ctx: Context, agentName: string, agent: Handle) returns (r: Outcome)
    modifies ctx
    ensures r == agent.outcome
    ensures ctx.stream == old(ctx.stream) + Forwarded(agent.events) +
      (if agent.outcome.Raised?
       then [AgentRunEvent(agentName, "Error running agent: " + agent.outcome.error)]
       else [])
    ensures ctx.data == old(ctx.data)
  {
    ForwardEvents(ctx, agent.events);
    if agent.outcome.Raised? {
      ctx.WriteEventToStream(AgentRunEvent(agentName, "Error running agent: " + agent.outcome.error));
    }
    r := agent.outcome;
  }
}
