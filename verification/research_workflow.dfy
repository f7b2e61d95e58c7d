/**
 * The steps of the idea-research workflow. Each language-model call is
 * replaced by its answer, passed in as a parameter: the classifier's text in
 * `Start`, the structured ProblemValidatorFeedback in
 * `ValidateProblemStatement`, the chat answer in `Qna`. Whether
 * `collect_events` has released is likewise a parameter of
 * `ReviewInitialResearch`.
 */
module ResearchWorkflow {
  import opened Workflow
  import opened Text
  import D = ResearchDispatch

  datatype ChatMessage = ChatMessage(role: string, content: string)

  /** The structured answer of the problem validator. */
  datatype ProblemValidatorFeedback = ProblemValidatorFeedback(
    enoughInformation: bool,
    refinedProblemStatement: string,
    feedback: string)

  /** The events the steps exchange. `streaming` is the optional attribute
      `start` reads with a default of False. */
  datatype Event =
    | StartEvent(input: string, streaming: Option<bool>)
    | QnaWorkflowEvent(input: string)
    | ResearchWorkflowEvent(input: string)
    | StartResearchPipelineEvent(input: string)
    | GetCritiqueEvent(input: string)
    | CompetitorAnalysisCompleteEvent(input: string)
    | CustomerInsightsCompleteEvent(input: string)
    | OnlineTrendsCompleteEvent(input: string)
    | MarketResearchCompleteEvent(input: string)
    | MarketResearchFeedbackEvent(input: string)
    | StartFeasibilityResearchEvent(input: string)

  /** A StopEvent with the keyword arguments it was built with: `qna` passes
      its text as `result`, `validate_problem_statement` as `input`. */
  datatype StopEvent = StopEvent(result: Option<string>, input: Option<string>)

  type Result = StepResult<Event, StopEvent>

  function KindOf(e: Event): D.Kind {
    match e
    case StartEvent(_, _) => D.StartEvent
    case QnaWorkflowEvent(_) => D.QnaWorkflowEvent
    case ResearchWorkflowEvent(_) => D.ResearchWorkflowEvent
    case StartResearchPipelineEvent(_) => D.StartResearchPipelineEvent
    case GetCritiqueEvent(_) => D.GetCritiqueEvent
    case CompetitorAnalysisCompleteEvent(_) => D.CompetitorAnalysisCompleteEvent
    case CustomerInsightsCompleteEvent(_) => D.CustomerInsightsCompleteEvent
    case OnlineTrendsCompleteEvent(_) => D.OnlineTrendsCompleteEvent
    case MarketResearchCompleteEvent(_) => D.MarketResearchCompleteEvent
    case MarketResearchFeedbackEvent(_) => D.MarketResearchFeedbackEvent
    case StartFeasibilityResearchEvent(_) => D.StartFeasibilityResearchEvent
  }

  /** The classes a step result hands to the engine. */
  function ResultKinds(r: Result): set<D.Kind> {
    match r
    case Advance(e) => {KindOf(e)}
    case Waiting => {}
    case Stop(_) => {D.StopEvent}
  }

  // ----- chat history -----

  function HistoryLine(m: ChatMessage): string {
    m.role + ": " + m.content
  }

  /** The chat history as the prompts show it: one `role: content` line per
      message, in history order, separated by line feeds. */
  function RenderHistory(history: seq<ChatMessage>): (r: string)
    ensures r == "" <==> history == []
    ensures history != [] ==> |HistoryLine(history[0])| <= |r| &&
                              r[..|HistoryLine(history[0])|] == HistoryLine(history[0])
  {
    var lines := seq(|history|, i requires 0 <= i < |history| => HistoryLine(history[i]));
    assert history != [] ==> lines[0] == HistoryLine(history[0]);
    Join(lines, "\n")
  }

  /** An empty history renders as the empty string, one message as its line. */
  lemma RenderHistoryBase(m: ChatMessage)
    ensures RenderHistory([]) == ""
    ensures RenderHistory([m]) == HistoryLine(m)
  {
    assert seq(1, i requires 0 <= i < 1 => HistoryLine([m][i])) == [HistoryLine(m)];
  }

  /** Rendering grows line by line: one more message adds a line feed and
      that message's line at the end. */
  lemma RenderHistorySnoc(history: seq<ChatMessage>, m: ChatMessage)
    ensures RenderHistory(history + [m]) ==
      if history == [] then HistoryLine(m) else RenderHistory(history) + "\n" + HistoryLine(m)
  {
    var h := history + [m];
    var lines := seq(|history|, i requires 0 <= i < |history| => HistoryLine(history[i]));
    assert seq(|h|, i requires 0 <= i < |h| => HistoryLine(h[i])) == lines + [HistoryLine(m)];
    JoinSnoc(lines, HistoryLine(m), "\n");
  }

  /** The rendering of two histories one after the other is the two
      renderings joined by one line feed. */
  lemma RenderHistoryConcat(a: seq<ChatMessage>, b: seq<ChatMessage>)
    requires a != [] && b != []
    ensures RenderHistory(a + b) == RenderHistory(a) + "\n" + RenderHistory(b)
  {
    var h := a + b;
    var la := seq(|a|, i requires 0 <= i < |a| => HistoryLine(a[i]));
    var lb := seq(|b|, i requires 0 <= i < |b| => HistoryLine(b[i]));
    assert seq(|h|, i requires 0 <= i < |h| => HistoryLine(h[i])) == la + lb;
    JoinConcat(la, lb, "\n");
  }

  // ----- start: the decision step -----

  /** The classifier's answer as the step compares it: `strip().lower()`. */
  function Normalize(text: string): string {
    Lower(Strip(text))
  }

  /** The event `start` returns for a classifier answer: ResearchWorkflowEvent
      exactly when the normalised answer is "research", QnaWorkflowEvent
      otherwise, both carrying the user input behind a fixed prefix. */
  function Decide(classifierText: string, input: string): (e: Event)
    ensures e.ResearchWorkflowEvent? <==> Normalize(classifierText) == "research"
    ensures e.QnaWorkflowEvent? <==> Normalize(classifierText) != "research"
    ensures e.input == "User input: " + input
  {
    if Normalize(classifierText) == "research" then ResearchWorkflowEvent("User input: " + input)
    else QnaWorkflowEvent("User input: " + input)
  }

  /** Whitespace around the answer and letter case do not matter: an answer
      made of a word that lowers to "research", padded on either side with
      whitespace, routes to research. */
  lemma DecidePaddedResearch(p: string, w: string, q: string, input: string)
    requires AllSpace(p) && AllSpace(q) && Lower(w) == "research"
    ensures Decide(p + w + q, input) == ResearchWorkflowEvent("User input: " + input)
  {
    assert !IsSpace(w[0]) && !IsSpace(w[|w| - 1]) by {
      assert LowerChar(w[0]) == 'r' && LowerChar(w[|w| - 1]) == 'h';
    }
    StripPadded(p, w, q);
  }

  /** " Research\n" routes to research. */
  lemma DecideExample(input: string)
    ensures Decide(" Research\n", input) == ResearchWorkflowEvent("User input: " + input)
  {
    assert " Research\n" == " " + "Research" + "\n";
    assert Lower("Research") == "research";
    DecidePaddedResearch(" ", "Research", "\n", input);
  }

  /** Conversely, an answer routes to research only if it is such a padded
      word: whitespace, a word that lowers to "research", whitespace. */
  lemma DecideResearchOnlyIfPadded(classifierText: string, input: string)
    requires Decide(classifierText, input).ResearchWorkflowEvent?
    ensures exists i, j :: 0 <= i <= j <= |classifierText| && AllSpace(classifierText[..i]) &&
              AllSpace(classifierText[j..]) && Lower(classifierText[i..j]) == "research"
  {
    var s := classifierText;
    var t := StripStart(s);
    var w := StripEnd(t);
    var i := |s| - |t|;
    var j := i + |w|;
    assert t == s[i..];
    assert w == s[i..j];
    assert t[|w|..] == s[j..];
  }

  /** A whitespace-only answer, the empty answer included, goes to the
      question-answer branch. */
  lemma DecideBlankIsQna(classifierText: string, input: string)
    requires AllSpace(classifierText)
    ensures Decide(classifierText, input) == QnaWorkflowEvent("User input: " + input)
  {
  }

  /** `start`: records the streaming flag and the input under "task" and "user_input" in the
      context, then routes on the classifier's answer. */
  method Start(ctx: Context, ev: Event, classifierText: string) returns (r: Result)
    requires ev.StartEvent?
    modifies ctx
    ensures ctx.data == old(ctx.data)["streaming" := Flag(ev.streaming.GetOr(false))]
                                     ["task" := Text(ev.input)]["user_input" := Text(ev.input)]
    ensures ctx.stream == old(ctx.stream)
    ensures r == Advance(Decide(classifierText, ev.input))
  {
    ctx.Put("streaming", Flag(ev.streaming.GetOr(false)));
    ctx.Put("task", Text(ev.input));
    ctx.Put("user_input", Text(ev.input));
    r := Advance(Decide(classifierText, ev.input));
  }

  // ----- the other steps -----

  /** `validate_problem_statement`: enough information continues with the
      refined statement; otherwise the run stops with the feedback, passed as
      the StopEvent's `input` and leaving its `result` unset. */
  function ValidateProblemStatement(fb: ProblemValidatorFeedback): (r: Result)
    ensures r.Advance? <==> fb.enoughInformation
    ensures r.Stop? <==> !fb.enoughInformation
    ensures r.Advance? ==> r.event == StartResearchPipelineEvent(fb.refinedProblemStatement)
    ensures r.Stop? ==> r.stop.input == Some(fb.feedback) && r.stop.result.None?
  {
    if fb.enoughInformation then Advance(StartResearchPipelineEvent(fb.refinedProblemStatement))
    else Stop(StopEvent.StopEvent(None, Some(fb.feedback)))
  }

  /** The messages `qna` sends: the history followed by the input as a user
      message. */
  function QnaMessages(history: seq<ChatMessage>, ev: Event): (m: seq<ChatMessage>)
    ensures |m| == |history| + 1 && m[..|history|] == history
    ensures m[|history|] == ChatMessage("user", ev.input)
  {
    history + [ChatMessage("user", ev.input)]
  }

  /** `qna`: the run stops with the chat answer as its result. */
  function Qna(answer: string): (r: Result)
    ensures r.Stop? && r.stop.result == Some(answer)
  {
    Stop(StopEvent.StopEvent(Some(answer), None))
  }

  /** `market_research`: either accepted class passes its input on unchanged
      in a GetCritiqueEvent. */
  function MarketResearch(ev: Event): (r: Result)
    requires ev.StartResearchPipelineEvent? || ev.MarketResearchCompleteEvent?
    ensures r.Advance? && r.event.GetCritiqueEvent? && r.event.input == ev.input
  {
    Advance(GetCritiqueEvent(ev.input))
  }

  /** `critique_market_research`: always MarketResearchCompleteEvent with the
      same input, never the feedback event its signature also allows. */
  function CritiqueMarketResearch(ev: Event): (r: Result)
    requires ev.GetCritiqueEvent?
    ensures r.Advance? && r.event.MarketResearchCompleteEvent? && r.event.input == ev.input
  {
    Advance(MarketResearchCompleteEvent(ev.input))
  }

  /** `review_initial_research` as intended: waits while `collect_events`
      has not released, then continues with the current event's input. The
      rest of the model uses this step. */
  function ReviewInitialResearch(ev: Event, released: bool): (r: Result)
    requires ev.GetCritiqueEvent?
    ensures r.Waiting? <==> !released
    ensures released ==> r == Advance(StartFeasibilityResearchEvent(ev.input))
  {
    if !released then Waiting else Advance(StartFeasibilityResearchEvent(ev.input))
  }

  /** How running a step body ends: it returns a result, or an exception
      escapes it and fails the run. */
  datatype StepRun = Returned(result: Result) | Failed(error: string)

  /** Reading a data field of one of the pipeline's events. These classes
      declare the single field `input`; reading a name that is neither a
      declared field nor a class attribute (methods such as `json` are not
      modelled) raises AttributeError. `result` is such a name. */
  function GetAttr(ev: Event, name: string): (r: Option<string>)
    requires !ev.StartEvent?
    ensures r.Some? <==> name == "input"
    ensures r.Some? ==> r.value == ev.input
  {
    if name == "input" then Some(ev.input) else None
  }

  /** `review_initial_research` with its first statement, a print of the
      event's data field `field`, spelled out: the step fails when that read
      raises, that is for a name that is neither a declared field nor a
      class attribute, and otherwise goes on as the intended step. */
  function ReviewInitialResearchPrinting(ev: Event, released: bool, field: string): (o: StepRun)
    requires ev.GetCritiqueEvent?
    ensures o.Failed? <==> field != "input"
    ensures o.Returned? ==> o.result == ReviewInitialResearch(ev, released)
  {
    match GetAttr(ev, field)
    case None => Failed("'GetCritiqueEvent' object has no attribute '" + field + "'")
    case Some(_) => Returned(ReviewInitialResearch(ev, released))
  }

  /** `review_initial_research` as written: it prints `ev.result`, which
      GetCritiqueEvent does not have, so the step raises on every event
      before `collect_events` is reached. */
  function ReviewInitialResearchAsWritten(ev: Event, released: bool): (o: StepRun)
    requires ev.GetCritiqueEvent?
    ensures o.Failed?
  {
    ReviewInitialResearchPrinting(ev, released, "result")
  }

  /** The join step as written fails even once all three results have
      arrived, where the intended step hands on the input. */
  lemma JoinStepRaises(x: string)
    ensures ReviewInitialResearchAsWritten(GetCritiqueEvent(x), true).Failed?
    ensures ReviewInitialResearch(GetCritiqueEvent(x), true) == Advance(StartFeasibilityResearchEvent(x))
  {
  }

  /** Critique and market research hand the same input back and forth for
      ever: the pair maps GetCritiqueEvent(x) to GetCritiqueEvent(x). */
  lemma CritiqueRoundTrip(x: string)
    ensures MarketResearch(CritiqueMarketResearch(GetCritiqueEvent(x)).event) == Advance(GetCritiqueEvent(x))
  {
  }

  /** Each step returns only classes its signature declares, so the
      reachability facts proved on the table hold of the steps themselves. */
  lemma DecisionStepsEmitDeclaredKinds(t: string, input: string, fb: ProblemValidatorFeedback, answer: string)
    ensures KindOf(Decide(t, input)) in D.Emits(D.Start)
    ensures ResultKinds(ValidateProblemStatement(fb)) <= D.Emits(D.ValidateProblemStatement)
    ensures ResultKinds(Qna(answer)) <= D.Emits(D.Qna)
  {
  }

  /** The same for the research pipeline's steps, on every event of a class
      the step accepts. */
  lemma PipelineStepsEmitDeclaredKinds(ev: Event, released: bool)
    ensures (ev.StartResearchPipelineEvent? || ev.MarketResearchCompleteEvent?) ==>
              KindOf(ev) in D.Accepts(D.MarketResearch) &&
              ResultKinds(MarketResearch(ev)) <= D.Emits(D.MarketResearch)
    ensures ev.GetCritiqueEvent? ==>
              KindOf(ev) in D.Accepts(D.CritiqueMarketResearch) &&
              ResultKinds(CritiqueMarketResearch(ev)) <= D.Emits(D.CritiqueMarketResearch) &&
              KindOf(ev) in D.Accepts(D.ReviewInitialResearch) &&
              ResultKinds(ReviewInitialResearch(ev, released)) <= D.Emits(D.ReviewInitialResearch)
  {
  }

  /** `run_agent`: drains the agent's stream into this run's stream, minus
      StopEvents, and hands back the agent's outcome. */
  method RunAgent(ctx: Context, agent: Handle) returns (r: Outcome)
    modifies ctx
    ensures ctx.stream == old(ctx.stream) + Forwarded(agent.events)
    ensures ctx.data == old(ctx.data)
    ensures r == agent.outcome
  {
    ForwardEvents(ctx, agent.events);
    r := agent.outcome;
  }
}
