/**
 * The top-level Ideator Inc workflow: competitor research followed by
 * podcast generation, and the helper that runs a sub-workflow inside a
 * step. The competitor researcher is a child run given by its handle.
 */
module IdeatorIncWorkflow {
  import opened Workflow

  datatype Event = StartEvent(input: string) | CreatePodcastEvent(input: string)

  type Result = StepResult<Event, string>

  /** `competitor_research`: calls `run_sub_workflow` without awaiting it, so
      the researcher never runs; the step hands on the run's input unchanged
      in a CreatePodcastEvent, whatever the researcher would have done. */
  function CompetitorResearch(ev: Event, competitorResearcher: Handle): (r: Result)
    requires ev.StartEvent?
    ensures r.Advance? && r.event.CreatePodcastEvent? && r.event.input == ev.input
  {
    Advance(CreatePodcastEvent(ev.input))
  }

  /** The researcher's events and outcome do not reach the step's result. */
  lemma CompetitorResearchIgnoresResearcher(ev: Event, h1: Handle, h2: Handle)
    requires ev.StartEvent?
    ensures CompetitorResearch(ev, h1) == CompetitorResearch(ev, h2)
  {
  }

  /** `podcast_generation`: the run stops with the incoming event's input as
      its result. */
  function PodcastGeneration(ev: Event): (r: Result)
    requires ev.CreatePodcastEvent?
    ensures r.Stop? && r.stop == ev.input
  {
    Stop(ev.input)
  }

  /** The engine's choice of step: each event class has exactly one step. */
  function Dispatch(ev: Event, competitorResearcher: Handle): (r: Result)
    ensures ev.StartEvent? ==> r == Advance(CreatePodcastEvent(ev.input))
    ensures ev.CreatePodcastEvent? ==> r == Stop(ev.input)
  {
    match ev
    case StartEvent(_) => CompetitorResearch(ev, competitorResearcher)
    case CreatePodcastEvent(_) => PodcastGeneration(ev)
  }

  /** The number of steps a run takes from `ev` to its StopEvent. */
  function StepsToStop(ev: Event): nat {
    if ev.StartEvent? then 2 else 1
  }

  /** A run driven event by event for at most `fuel` steps: the result of its
      StopEvent, or None if it has not stopped within that many steps. Every
      run stops with the input it was given, once it has the steps to. */
  function Run(ev: Event, competitorResearcher: Handle, fuel: nat): (r: Option<string>)
    ensures r == if fuel >= StepsToStop(ev) then Some(ev.input) else None
    decreases fuel
  {
    if fuel == 0 then None
    else
      match Dispatch(ev, competitorResearcher)
      case Advance(next) => Run(next, competitorResearcher, fuel - 1)
      case Waiting => None
      case Stop(result) => Some(result)
  }

  /** A run started with input x stops after two steps with result x. */
  lemma PipelineIdentity(x: string, competitorResearcher: Handle, fuel: nat)
    requires fuel >= 2
    ensures Run(StartEvent(x), competitorResearcher, fuel) == Some(x)
  {
    assert Dispatch(StartEvent(x), competitorResearcher) == Advance(CreatePodcastEvent(x));
    assert Run(CreatePodcastEvent(x), competitorResearcher, fuel - 1) == Some(x);
  }

  /** `run_sub_workflow`: drains the sub-workflow's stream into this run's
      stream, minus StopEvents, and hands back its awaited outcome. */
  method RunSubWorkflow(ctx: Context, workflow: Handle) returns (r: Outcome)
    modifies ctx
    ensures ctx.stream == old(ctx.stream) + Forwarded(workflow.events)
    ensures ctx.data == old(ctx.data)
    ensures r == workflow.outcome
  {
    ForwardEvents(ctx, workflow.events);
    r := workflow.outcome;
  }
}
