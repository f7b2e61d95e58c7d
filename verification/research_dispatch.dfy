/**
 * The wiring of the research workflow as its step signatures declare it:
 * which event classes each step accepts (the type of its `ev` parameter)
 * and which it may return (its return annotation). The engine dispatches an
 * event to every step that accepts its class, so the table alone decides
 * which classes a run can ever produce.
 */
module ResearchDispatch {

  /** The event classes of the research workflow. */
  datatype Kind =
    | StartEvent
    | StopEvent
    | QnaWorkflowEvent
    | ResearchWorkflowEvent
    | StartResearchPipelineEvent
    | GetCritiqueEvent
    | CompetitorAnalysisCompleteEvent
    | CustomerInsightsCompleteEvent
    | OnlineTrendsCompleteEvent
    | MarketResearchCompleteEvent
    | MarketResearchFeedbackEvent
    | StartFeasibilityResearchEvent

  /** The steps of the research workflow. */
  datatype Step =
    | Start
    | ValidateProblemStatement
    | Qna
    | MarketResearch
    | CritiqueMarketResearch
    | ReviewInitialResearch

  const Steps: set<Step> :=
    {Start, ValidateProblemStatement, Qna, MarketResearch, CritiqueMarketResearch, ReviewInitialResearch}

  lemma AllStepsListed()
    ensures forall s: Step :: s in Steps
  {
    forall s: Step ensures s in Steps {
      match s
      case Start =>
      case ValidateProblemStatement =>
      case Qna =>
      case MarketResearch =>
      case CritiqueMarketResearch =>
      case ReviewInitialResearch =>
    }
  }

  /** The classes a step's `ev` parameter is annotated with. */
  function Accepts(s: Step): (r: set<Kind>)
    ensures r != {} && StopEvent !in r
  {
    match s
    case Start => {StartEvent}
    case ValidateProblemStatement => {ResearchWorkflowEvent}
    case Qna => {QnaWorkflowEvent}
    case MarketResearch => {StartResearchPipelineEvent, MarketResearchCompleteEvent}
    case CritiqueMarketResearch => {GetCritiqueEvent}
    case ReviewInitialResearch => {GetCritiqueEvent}
  }

  /** The classes a step's return annotation names. */
  function Emits(s: Step): (r: set<Kind>)
    ensures r != {} && StartEvent !in r
    ensures r * JoinAwaits == {}
  {
    match s
    case Start => {QnaWorkflowEvent, ResearchWorkflowEvent}
    case ValidateProblemStatement => {StartResearchPipelineEvent, StopEvent}
    case Qna => {StopEvent}
    case MarketResearch => {GetCritiqueEvent}
    case CritiqueMarketResearch => {MarketResearchCompleteEvent, MarketResearchFeedbackEvent}
    case ReviewInitialResearch => {StartFeasibilityResearchEvent}
  }

  /** The event classes `review_initial_research` waits to collect. */
  const JoinAwaits: set<Kind> :=
    {CompetitorAnalysisCompleteEvent, CustomerInsightsCompleteEvent, OnlineTrendsCompleteEvent}

  /** The steps an event of class `k` is dispatched to. */
  function Handlers(k: Kind): (r: set<Step>)
    ensures forall s: Step :: s in r <==> k in Accepts(s)
  {
    AllStepsListed();
    set s | s in Steps && k in Accepts(s)
  }

  /** GetCritiqueEvent fans out to two steps. */
  lemma GetCritiqueFansOut()
    ensures Handlers(GetCritiqueEvent) == {CritiqueMarketResearch, ReviewInitialResearch}
  {
    assert forall s: Step :: s in Handlers(GetCritiqueEvent) <==> s == CritiqueMarketResearch || s == ReviewInitialResearch;
  }

  /** `market_research` is the only step for either of its two classes. */
  lemma MarketResearchAcceptsUnion()
    ensures Handlers(StartResearchPipelineEvent) == {MarketResearch}
    ensures Handlers(MarketResearchCompleteEvent) == {MarketResearch}
  {
    assert forall s: Step :: s in Handlers(StartResearchPipelineEvent) <==> s == MarketResearch;
    assert forall s: Step :: s in Handlers(MarketResearchCompleteEvent) <==> s == MarketResearch;
  }

  /** Some step can turn an event of class `a` into one of class `b`. */
  predicate Edge(a: Kind, b: Kind) {
    exists s: Step :: a in Accepts(s) && b in Emits(s)
  }

  /** A chain of classes, each produced from the previous one by a step. */
  predicate IsPath(p: seq<Kind>) {
    forall i :: 0 <= i < |p| - 1 ==> Edge(p[i], p[i + 1])
  }

  /** A set of classes no step leads out of. */
  ghost predicate Closed(c: set<Kind>) {
    forall a, b :: a in c && Edge(a, b) ==> b in c
  }

  /** A path that starts inside a closed set never leaves it. */
  lemma {:induction false} PathStaysInClosedSet(c: set<Kind>, p: seq<Kind>)
    requires Closed(c) && IsPath(p) && p != [] && p[0] in c
    ensures forall i :: 0 <= i < |p| ==> p[i] in c
  {
    if |p| > 1 {
      var init := p[..|p| - 1];
      assert IsPath(init) by {
        forall i | 0 <= i < |init| - 1 ensures Edge(init[i], init[i + 1]) {
          assert init[i] == p[i] && init[i + 1] == p[i + 1];
        }
      }
      PathStaysInClosedSet(c, init);
      assert p[|p| - 2] == init[|init| - 1];
      assert Edge(p[|p| - 2], p[|p| - 1]);
    }
  }

  /** Every class a run started by StartEvent can produce. */
  const FromStart: set<Kind> :=
    {StartEvent, QnaWorkflowEvent, ResearchWorkflowEvent, StartResearchPipelineEvent, StopEvent,
     GetCritiqueEvent, MarketResearchCompleteEvent, MarketResearchFeedbackEvent, StartFeasibilityResearchEvent}

  /** Every class the research pipeline can produce once it has started. */
  const FromPipeline: set<Kind> :=
    {StartResearchPipelineEvent, GetCritiqueEvent, MarketResearchCompleteEvent,
     MarketResearchFeedbackEvent, StartFeasibilityResearchEvent}

  lemma FromStartClosed()
    ensures Closed(FromStart)
  {
    forall a, b | a in FromStart && Edge(a, b) ensures b in FromStart {
      var s: Step :| a in Accepts(s) && b in Emits(s);
    }
  }

  lemma FromPipelineClosed()
    ensures Closed(FromPipeline)
  {
    forall a, b | a in FromPipeline && Edge(a, b) ensures b in FromPipeline {
      var s: Step :| a in Accepts(s) && b in Emits(s);
    }
  }

  /** No class the join waits for is ever produced in a run started by
      StartEvent: no step in the workflow declares that it emits one. */
  lemma {:induction false} JoinInputsUnreachable(p: seq<Kind>)
    requires IsPath(p) && p != [] && p[0] == StartEvent
    ensures forall i :: 0 <= i < |p| ==> p[i] !in JoinAwaits
  {
    FromStartClosed();
    PathStaysInClosedSet(FromStart, p);
  }

  /** Once the research pipeline has started, no step produces a StopEvent:
      that branch of a run never ends with a result. As written it ends when
      the join step raises (ResearchWorkflow.ReviewInitialResearchAsWritten);
      with the intended join step it ends by timeout. */
  lemma {:induction false} PipelineNeverStops(p: seq<Kind>)
    requires IsPath(p) && p != [] && p[0] == StartResearchPipelineEvent
    ensures StopEvent !in p
  {
    FromPipelineClosed();
    PathStaysInClosedSet(FromPipeline, p);
  }

  /** By the table alone, a run could reach StartFeasibilityResearchEvent
      through the join step; what keeps it from doing so is the join step's
      error on its first line and, without that error, the join's wait for
      classes no step produces (see JoinInputsUnreachable). */
  lemma FeasibilityReachable()
    ensures IsPath([StartEvent, ResearchWorkflowEvent, StartResearchPipelineEvent,
                    GetCritiqueEvent, StartFeasibilityResearchEvent])
  {
    assert Edge(StartEvent, ResearchWorkflowEvent) by { assert StartEvent in Accepts(Start); }
    assert Edge(ResearchWorkflowEvent, StartResearchPipelineEvent) by {
      assert ResearchWorkflowEvent in Accepts(ValidateProblemStatement);
    }
    assert Edge(StartResearchPipelineEvent, GetCritiqueEvent) by {
      assert StartResearchPipelineEvent in Accepts(MarketResearch);
    }
    assert Edge(GetCritiqueEvent, StartFeasibilityResearchEvent) by {
      assert GetCritiqueEvent in Accepts(ReviewInitialResearch);
    }
  }

  /** `market_research` and `critique_market_research` feed each other:
      GetCritiqueEvent leads back to GetCritiqueEvent. */
  lemma CritiqueCycle()
    ensures IsPath([GetCritiqueEvent, MarketResearchCompleteEvent, GetCritiqueEvent])
  {
    assert Edge(GetCritiqueEvent, MarketResearchCompleteEvent) by {
      assert GetCritiqueEvent in Accepts(CritiqueMarketResearch);
    }
    assert Edge(MarketResearchCompleteEvent, GetCritiqueEvent) by {
      assert MarketResearchCompleteEvent in Accepts(MarketResearch);
    }
  }
}
