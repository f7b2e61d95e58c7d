# Ideator Inc: the event-routing layer

Ideator Inc runs a business-idea research service. Its backend consists of
llama_index workflows whose steps call language-model agents. Its frontend
streams each agent's progress into per-agent panels. This project models the
deterministic layer around those agents. In it, every agent answer is an
input, never a computation.

- **Research workflow** (`new_workflow.py`): the steps and what each returns.
  - `start` routes the classifier's answer after `strip().lower()`.
  - `validate_problem_statement` stops or continues on the validator's flag.
  - `qna` stops with the chat answer.
  - `market_research` and `critique_market_research` pass their input through.
  - The join step `review_initial_research`. As written it raises on its first line. The intended step waits on `collect_events`, and the rest of the model uses that one.
  - The chat-history rendering.
  - The dispatch table of accepted and emitted event classes. The model uses it to prove which classes a run can reach.
- **Sub-run forwarding** (`run_agent`, `run_sub_workflow`, in three files): a child run's stream is copied to the parent's, minus StopEvents. The podcast variant also reports an agent's failure.
- **Podcast workflow** (`podcaster/workflow.py`):
  - the first critique event;
  - the critique transition (iteration cap, satisfied critic, revision) and its progress message;
  - the (speaker, text) pairs handed to speech synthesis.
- **Ideator pipeline** (`ideator_inc_workflow.py`): competitor research followed by podcast generation.
- **Frontend stores** (`agentStore.ts`): nine named append-only event lists.
- **Distribution effect** (`page.tsx`): routes the newest agent events of the last chat message to those stores behind a high-water mark.

Modules:

| file | module | what it holds |
|---|---|---|
| workflow_core.dfy | `Workflow` | step results, stream events, the run context (class), child handles, the forwarding filter and loop |
| text.dfy | `Text` | ASCII `strip`, `lower`, `str.join`, decimal rendering of integers |
| research_dispatch.dfy | `ResearchDispatch` | the step/event-class table and reachability over it |
| research_workflow.dfy | `ResearchWorkflow` | the research workflow's steps |
| podcast_workflow.dfy | `PodcastWorkflow` | the podcast workflow's steps |
| ideator_inc_workflow.dfy | `IdeatorIncWorkflow` | the two-step pipeline and `run_sub_workflow` |
| agent_store.dfy | `AgentStore` | the stores (classes) |
| agent_event_routing.dfy | `AgentEventRouting` | the distribution effect (class) and the mark over successive runs |

Several things are inputs to the model rather than computed by it:

- The classifier's text, the `ProblemValidatorFeedback` record, the chat answer and the `ScriptCritique` record.
- Whether `collect_events` has released.
- The events a child run yields and how it ends (`Handle`).
- The chat messages the effect sees.

## Model

| member | source | states |
|---|---|---|
| Workflow.Context.constructor | backend/app/agents/new_workflow.py:96-97 | a run's context starts with no key/value data and an empty stream |
| Workflow.Context.WriteEventToStream | backend/app/agents/new_workflow.py:196 | writing an event appends exactly that event to the stream and leaves the key/value data alone |
| Workflow.Context.Put | backend/app/agents/new_workflow.py:99-102 | a `ctx.data[key] = v` assignment updates that key only and writes nothing to the stream |
| Workflow.Forwarded | backend/app/agents/new_workflow.py:193-196 | what is forwarded is no longer than the child's stream and contains no StopEvent |
| Workflow.ForwardedIsOrderedSelection | backend/app/agents/new_workflow.py:193-196 | the forwarded events are the child's events at strictly increasing positions, and every non-StopEvent position is among them: order kept, nothing else dropped |
| Workflow.ForwardedMembers | backend/app/agents/new_workflow.py:195 | an event is forwarded if and only if the child yielded it and it is not a StopEvent |
| Workflow.ForwardedConcat | backend/app/agents/new_workflow.py:193-196 | forwarding a stream in two parts gives the two forwarded parts one after the other, so events are written as they arrive |
| Workflow.ForwardedKeepsStopFree | backend/app/agents/new_workflow.py:195-196 | a stream without StopEvents is forwarded unchanged |
| Workflow.ForwardedDropsFinalStop | backend/app/agents/new_workflow.py:194-196 | a child yielding two events and then its StopEvent shows the parent exactly those two events |
| Workflow.ForwardEvents | backend/app/agents/new_workflow.py:193-196 | the loop appends exactly the forwarded events, in order, to the parent's stream and leaves its data alone |
| Text.StripStart | backend/app/agents/new_workflow.py:131 | the result is a suffix of the input that starts with a non-space character, and only whitespace was removed |
| Text.StripEnd | backend/app/agents/new_workflow.py:131 | the result is a prefix of the input that ends with a non-space character, and only whitespace was removed |
| Text.Strip | backend/app/agents/new_workflow.py:131 | the stripped text is a slice of the input with only whitespace before and after it; it is empty or starts and ends with a non-space character, and it is empty exactly when the input is all whitespace |
| Text.StripStartPadded | backend/app/agents/new_workflow.py:131 | leading whitespace in front of text that starts with a non-space character is removed and nothing more |
| Text.StripEndPadded | backend/app/agents/new_workflow.py:131 | trailing whitespace after text that ends with a non-space character is removed and nothing more |
| Text.StripPadded | backend/app/agents/new_workflow.py:131 | stripping whitespace-padded text gives back the text |
| Text.Lower | backend/app/agents/new_workflow.py:131 | lowering keeps the length and lowers each character on its own |
| Text.Join | backend/app/agents/new_workflow.py:125-127 | joining nothing gives ""; otherwise the result starts with the first part and its length is the parts' total length plus one separator between each two neighbours |
| Text.JoinSnoc | backend/app/agents/new_workflow.py:125-127 | joining one more part adds the separator and that part at the end, or the part alone when there was none |
| Text.JoinConcat | backend/app/agents/new_workflow.py:125-127 | joining two non-empty lists one after the other is their joins separated once |
| Text.NatToDecimal | backend/app/agents/stage_6_output_production/podcaster/workflow.py:92 | the rendering of a natural number is a non-empty string of digits whose value is that number, with no leading zero |
| Text.NatToDecimalInjective | backend/app/agents/stage_6_output_production/podcaster/workflow.py:92 | different numbers render differently |
| Text.IntToDecimal | backend/app/agents/stage_6_output_production/podcaster/workflow.py:92 | a negative integer renders as a minus sign followed by its magnitude; any other renders as its digits |
| ResearchDispatch.Accepts | backend/app/agents/new_workflow.py:97-170 | every step's `ev` annotation names at least one class and never StopEvent |
| ResearchDispatch.Emits | backend/app/agents/new_workflow.py:97-170 | every step's return annotation names at least one class, never StartEvent and none of the three classes the join waits for |
| ResearchDispatch.AllStepsListed | backend/app/agents/new_workflow.py:96-182 | the table lists every step of the workflow |
| ResearchDispatch.Handlers | backend/app/agents/new_workflow.py:96-170 | an event goes to a step if and only if the step's `ev` annotation names its class |
| ResearchDispatch.GetCritiqueFansOut | backend/app/agents/new_workflow.py:163-170 | GetCritiqueEvent is accepted by exactly two steps, `critique_market_research` and `review_initial_research` |
| ResearchDispatch.MarketResearchAcceptsUnion | backend/app/agents/new_workflow.py:160 | both classes of `market_research`'s union go to it and to no other step |
| ResearchDispatch.PathStaysInClosedSet | backend/app/agents/new_workflow.py:96-182 | a chain of step-produced classes that starts in a set no step leads out of stays in it |
| ResearchDispatch.FromStartClosed | backend/app/agents/new_workflow.py:96-182 | no step leads from a class a run started by StartEvent can produce to any other class |
| ResearchDispatch.FromPipelineClosed | backend/app/agents/new_workflow.py:160-182 | no step leads out of the classes of the started research pipeline |
| ResearchDispatch.JoinInputsUnreachable | backend/app/agents/new_workflow.py:174-181 | none of the three classes the join waits for appears on any chain from StartEvent, because no step declares it emits one |
| ResearchDispatch.PipelineNeverStops | backend/app/agents/new_workflow.py:160-182 | once StartResearchPipelineEvent is produced, no chain reaches StopEvent |
| ResearchDispatch.FeasibilityReachable | backend/app/agents/new_workflow.py:96-182 | by the table alone, StartEvent leads to StartFeasibilityResearchEvent through the join |
| ResearchDispatch.CritiqueCycle | backend/app/agents/new_workflow.py:160-165 | `market_research` and `critique_market_research` feed each other in a cycle |
| ResearchWorkflow.RenderHistory | backend/app/agents/new_workflow.py:125-127 | the rendered history is empty exactly when there are no messages, and otherwise starts with the first message's `role: content` line |
| ResearchWorkflow.RenderHistoryBase | backend/app/agents/new_workflow.py:125-127 | an empty history renders as "" and a single message as its `role: content` line |
| ResearchWorkflow.RenderHistorySnoc | backend/app/agents/new_workflow.py:125-127 | one more message adds a line feed and that message's line at the end |
| ResearchWorkflow.RenderHistoryConcat | backend/app/agents/new_workflow.py:140-142 | two histories render as their renderings separated by one line feed, one line per message in order |
| ResearchWorkflow.Decide | backend/app/agents/new_workflow.py:131-136 | ResearchWorkflowEvent exactly when the stripped, lowered answer is "research", QnaWorkflowEvent exactly otherwise, both carrying "User input: " followed by the input |
| ResearchWorkflow.DecidePaddedResearch | backend/app/agents/new_workflow.py:131-134 | whitespace-padded text of any case that lowers to "research" routes to research |
| ResearchWorkflow.DecideExample | backend/app/agents/new_workflow.py:131-134 | " Research\n" routes to research |
| ResearchWorkflow.DecideResearchOnlyIfPadded | backend/app/agents/new_workflow.py:131-134 | an answer routes to research only if it is whitespace, a word that lowers to "research", then whitespace |
| ResearchWorkflow.DecideBlankIsQna | backend/app/agents/new_workflow.py:131-136 | an empty or whitespace-only answer routes to the question-answer branch |
| ResearchWorkflow.Start | backend/app/agents/new_workflow.py:96-136 | sets "streaming" (default false), "task" and "user_input" in the context, writes nothing to the stream, and returns the decision's event |
| ResearchWorkflow.ValidateProblemStatement | backend/app/agents/new_workflow.py:138-150 | continues with the refined statement exactly when there is enough information; otherwise stops with the feedback under `input` and no `result` |
| ResearchWorkflow.QnaMessages | backend/app/agents/new_workflow.py:154 | the chat sent is the history, unchanged, followed by one user message with the event's input |
| ResearchWorkflow.Qna | backend/app/agents/new_workflow.py:155-156 | stops with the chat answer as the result |
| ResearchWorkflow.MarketResearch | backend/app/agents/new_workflow.py:159-161 | either accepted class yields GetCritiqueEvent with the same input |
| ResearchWorkflow.CritiqueMarketResearch | backend/app/agents/new_workflow.py:163-165 | always MarketResearchCompleteEvent with the same input, never the feedback event |
| ResearchWorkflow.ReviewInitialResearch | backend/app/agents/new_workflow.py:172-182 | the intended join step: waits exactly while `collect_events` has not released; then exactly one StartFeasibilityResearchEvent with the current event's input |
| ResearchWorkflow.GetAttr | backend/app/agents/new_workflow.py:45-49 | among names that are not class attributes (such as `result`), reading a data field of a pipeline event succeeds exactly for `input`, which GetCritiqueEvent declares, and gives its value |
| ResearchWorkflow.ReviewInitialResearchPrinting | backend/app/agents/new_workflow.py:169-182 | the join step with the data field its first line prints as a parameter: for a name that is neither a declared field nor a class attribute it fails, so it fails exactly when that field is not `input`, and otherwise returns what the intended step returns |
| ResearchWorkflow.ReviewInitialResearchAsWritten | backend/app/agents/new_workflow.py:171 | as written the join step fails on every GetCritiqueEvent, released or not |
| ResearchWorkflow.JoinStepRaises | backend/app/agents/new_workflow.py:169-182 | even once all three results have arrived, the step as written fails where the intended step hands on the input |
| ResearchWorkflow.CritiqueRoundTrip | backend/app/agents/new_workflow.py:160-165 | critique then market research brings GetCritiqueEvent(x) back to GetCritiqueEvent(x) |
| ResearchWorkflow.DecisionStepsEmitDeclaredKinds | backend/app/agents/new_workflow.py:97-156 | `start`, `validate_problem_statement` and `qna` return only classes their return annotations declare, so the reachability facts apply to the steps |
| ResearchWorkflow.PipelineStepsEmitDeclaredKinds | backend/app/agents/new_workflow.py:160-182 | each pipeline step accepts the classes it is called with and returns only classes its return annotation declares |
| ResearchWorkflow.RunAgent | backend/app/agents/new_workflow.py:184-197 | the parent's stream gains exactly the agent's forwarded events, its data is untouched, and the agent's outcome is returned |
| PodcastWorkflow.GenerateScript | backend/app/agents/stage_6_output_production/podcaster/workflow.py:68-76 | the written script goes to its first critique at iteration 0 |
| PodcastWorkflow.ConsultsCritic | backend/app/agents/stage_6_output_production/podcaster/workflow.py:80 | the critic is consulted exactly when the iteration is below the cap |
| PodcastWorkflow.CritiqueOutcome | backend/app/agents/stage_6_output_production/podcaster/workflow.py:79-99 | audio exactly when the cap is reached or the critic is satisfied, revision exactly otherwise; always one event carrying the unchanged script, and a revision carries the critique |
| PodcastWorkflow.CritiqueProgress | backend/app/agents/stage_6_output_production/podcaster/workflow.py:80-94 | one progress message naming the critic when it is consulted, none at or past the cap |
| PodcastWorkflow.CapIgnoresCritic | backend/app/agents/stage_6_output_production/podcaster/workflow.py:80-81 | at or past the cap the result is audio with the same script whatever the critic says, and nothing is written |
| PodcastWorkflow.ReviseIsNeverDispatched | backend/app/agents/stage_6_output_production/podcaster/workflow.py:79-99 | the revise branch returns an event no step accepts |
| PodcastWorkflow.FirstCritiqueIsNumberOne | backend/app/agents/stage_6_output_production/podcaster/workflow.py:76-94 | with the default cap the first critique of a new script is reported as "Critique #1: Rating r/10" |
| PodcastWorkflow.CritiqueMessage | backend/app/agents/stage_6_output_production/podcaster/workflow.py:92 | the message opens with "Critique #" and the decimal 1-based iteration number, and ends with "/10" |
| PodcastWorkflow.CritiqueMessageShowsRating | backend/app/agents/stage_6_output_production/podcaster/workflow.py:92 | the rating in the message is the decimal rendering of the critic's rating, and reads back as it |
| PodcastWorkflow.CritiqueScript | backend/app/agents/stage_6_output_production/podcaster/workflow.py:78-99 | returns the transition's event, appends the progress messages to the stream and leaves the data alone |
| PodcastWorkflow.AudioSegments | backend/app/agents/stage_6_output_production/podcaster/workflow.py:104 | one (speaker, text) pair per script segment, in script order |
| PodcastWorkflow.AudioSegmentsRoundTrip | backend/app/agents/stage_6_output_production/podcaster/workflow.py:104 | the segments can be rebuilt from the pairs, so the mapping loses nothing |
| PodcastWorkflow.RunAgent | backend/app/agents/stage_6_output_production/podcaster/workflow.py:122-136 | forwards the agent's non-StopEvents in order; on failure writes exactly one error event naming the agent and passes the error on; otherwise returns the agent's result |
| IdeatorIncWorkflow.CompetitorResearch | backend/app/agents/ideator_inc_workflow.py:68-72 | yields CreatePodcastEvent with the input unchanged |
| IdeatorIncWorkflow.CompetitorResearchIgnoresResearcher | backend/app/agents/ideator_inc_workflow.py:71-72 | the un-awaited researcher's events and outcome do not affect the step's result |
| IdeatorIncWorkflow.PodcastGeneration | backend/app/agents/ideator_inc_workflow.py:75-77 | stops with the incoming event's input as the result |
| IdeatorIncWorkflow.Dispatch | backend/app/agents/ideator_inc_workflow.py:68-77 | a StartEvent goes to `competitor_research` and continues with CreatePodcastEvent of the same input; CreatePodcastEvent goes to `podcast_generation` and stops with its input |
| IdeatorIncWorkflow.Run | backend/app/agents/ideator_inc_workflow.py:68-77 | a run stops with the input it was started with once it has the steps to (two from StartEvent, one from CreatePodcastEvent), and has no result before |
| IdeatorIncWorkflow.PipelineIdentity | backend/app/agents/ideator_inc_workflow.py:68-77 | a run started with input x stops with result x after two steps |
| IdeatorIncWorkflow.RunSubWorkflow | backend/app/agents/ideator_inc_workflow.py:79-92 | the parent's stream gains exactly the child's forwarded events and the child's outcome is returned |
| AgentStore.Store.constructor | frontend/app/stores/agentStore.ts:9-11 | a new store holds no events |
| AgentStore.Store.AddEvent | frontend/app/stores/agentStore.ts:12-15 | the event list becomes the old list with the event at the end; earlier events stay put and the length grows by one |
| AgentStore.Store.ClearEvents | frontend/app/stores/agentStore.ts:16 | the event list is empty afterwards, whatever it held, so clearing twice is clearing once |
| AgentStore.NineStoreNames | frontend/app/stores/agentStore.ts:19-29 | there are exactly nine store names |
| AgentStore.Stores.constructor | frontend/app/stores/agentStore.ts:19-29 | the nine names each get a fresh, empty store of their own |
| AgentStore.Stores.AddEvent | frontend/app/stores/agentStore.ts:12-15 | the named store gains the event at the end and every other store keeps its events |
| AgentEventRouting.AgentEvents | frontend/app/page.tsx:128-131 | there are no more agent events than annotations |
| AgentEventRouting.AgentEventsSingle | frontend/app/page.tsx:128-131 | one agent annotation yields its data and one other annotation yields nothing, so with AgentEventsConcat the result is the agent annotations' data in annotation order |
| AgentEventRouting.AgentEventsMembers | frontend/app/page.tsx:128-131 | data is among the agent events exactly when it appears as an agent annotation |
| AgentEventRouting.AgentEventsConcat | frontend/app/page.tsx:128-131 | the agent events of two annotation lists one after the other are their agent events one after the other |
| AgentEventRouting.LastAnnotations | frontend/app/page.tsx:124-127 | there are annotations to look at exactly when there is a last message and it carries some; they are that message's |
| AgentEventRouting.NewEventsIn | frontend/app/page.tsx:133-135 | nothing when there are no more agent events than the mark, otherwise exactly the agent events from the mark on |
| AgentEventRouting.NewAgentEvents | frontend/app/page.tsx:124-135 | nothing when there is no message or the last one has no annotations, otherwise the new agent events of the last message |
| AgentEventRouting.MarkAfter | frontend/app/page.tsx:133-148 | the mark stays unless new events were handed out; then it becomes the annotation count (as written) or the agent-event count (corrected) |
| AgentEventRouting.NextMark | frontend/app/page.tsx:124-148 | the mark never moves back, and it moves exactly when the run hands out events |
| AgentEventRouting.RoutedTo | frontend/app/page.tsx:138-145 | a store receives only events that name it, and no more than there were |
| AgentEventRouting.RoutedToConcat | frontend/app/page.tsx:138-145 | routing two batches one after the other gives each store the first batch's events for it followed by the second's, so arrival order is kept |
| AgentEventRouting.RoutedToMembers | frontend/app/page.tsx:141-144 | an event reaches a store exactly when it is new and its `workflowName` is that store's name |
| AgentEventRouting.Route | frontend/app/page.tsx:138-145 | routing a batch of events leaves the set of stores as it was |
| AgentEventRouting.RouteDelivers | frontend/app/page.tsx:138-145 | after routing, each store holds its old events followed, in order, by exactly the events that name it; events naming no store change nothing |
| AgentEventRouting.RerunHandsOutNothing | frontend/app/page.tsx:133-148 | once the mark has moved, re-running the effect on the same messages hands out nothing |
| AgentEventRouting.Home.constructor | frontend/app/page.tsx:52 | the mark starts at 0 |
| AgentEventRouting.Home.HandleAgentSubmit | frontend/app/page.tsx:100-102 | a new request resets the mark to 0 |
| AgentEventRouting.Home.DistributeAgentEvents | frontend/app/page.tsx:123-150 | the stores' new contents are the old ones with the new agent events routed into them (so, by RouteDelivers, each store gains exactly the new events that name it, in order), and the mark moves to the last message's annotation count |
| AgentEventRouting.RouteEvents | frontend/app/page.tsx:138-145 | the loop leaves the stores holding exactly the old contents with the events routed into them |
| AgentEventRouting.AgentEventsGrow | frontend/app/page.tsx:125-131 | a message whose annotations grow keeps its earlier agent events as a prefix |
| AgentEventRouting.GrowsTail | frontend/app/page.tsx:125-131 | the snapshots after the first still grow one into the next |
| AgentEventRouting.AgentEventCountStep | frontend/app/page.tsx:133-148 | one run with the corrected mark hands out the agent events from the mark on and moves the mark to their count |
| AgentEventRouting.AgentEventCountDeliversEachOnce | frontend/app/page.tsx:133-148 | with the corrected mark, the runs over a growing message hand out each of its agent events exactly once, in order, skipping none |
| AgentEventRouting.AnnotationCountSkipsLaterEvent | frontend/app/page.tsx:148 | with the mark as written, a message with one other annotation loses an agent event that arrives later; the corrected mark delivers it |

## Left out

- Language-model calls and agents: their answers are parameters. Their prompts are text sent to a model and have no effect on routing.
- The workflow engine: dispatch order, concurrency between steps, run timeouts, and the internals of `collect_events`. The join is modelled only as a released/not-released input. The dispatch table states which steps an event goes to, not when.
- Forwarding covers only the events a child yields before it ends. A child that raises is modelled as a stream followed by a `Raised` outcome; exception types are collapsed into one error string. The podcast `run_agent` (podcaster/workflow.py:129) catches only `Exception`; a cancellation (`asyncio.CancelledError`, for example from the run timeout) or a `KeyboardInterrupt` passes through without the error event, while the model writes the error event for every `Raised` outcome.
- Speech synthesis, the metadata file and directory creation in `generate_audio` and the workflow constructor: these are I/O. Only the segment mapping is modelled.
- The podcast workflow's `start` and `generate_outline` steps are not part of this model. They only copy the research and count outline segments around a model call.
- The output of `print`. The join step's `print` matters only through the attribute it reads; see the findings.
- The ReviseScriptEvent loop-back: the code has none. No step accepts the event and nothing increments `iteration`, so no revision cycle or bound is modelled.
- Text.Strip, Text.Lower: ASCII only. Python's `strip` and `lower` also treat non-ASCII whitespace and letters, and those are not modelled.
- AgentEventRouting.Home.DistributeAgentEvents: a `workflowName` that names an inherited JavaScript object member (such as "constructor") is treated as unknown and dropped. In the page it would find that member instead of a store; `store.getState` is then undefined, so `store.getState()` throws a TypeError, which skips the rest of the `forEach` and the mark update at page.tsx:148.
- Chat roles are modelled as the text the f-string renders for them.
- `getAnnotationData` is not part of this model's sources: `AgentEvents` takes it to be the filter that keeps, in order, the data of the annotations of type `MessageAnnotationType.AGENT_EVENTS`.
- ResearchWorkflow.Qna: the model takes `result.content` (new_workflow.py:156) to be the chat answer. The chat response class of the model library is not part of this model; if it has no `content` attribute, the step raises as the join step does, and that is not modelled.
- The React rendering, the other effects and state of the page, the UI components, the HTTP router, engine selection and the commented-out workflows are not part of this model.

## Findings

| source | as written | input that shows it | evidently intended | confidence | as-written member | corrected member |
|---|---|---|---|---|---|---|
| frontend/app/page.tsx:148 | after handing out agent events, the mark is set to the total number of annotations of the last message, while it is compared with and used as an index into the list of agent events (lines 133-135) | the last message first carries [agent event a1, a "sources" annotation], then [a1, "sources", agent event a2]: the first run hands out a1 and sets the mark to 2; the second sees 2 agent events, which is not more than 2, so a2 never reaches its store | the mark becomes the number of agent events, so every agent event of a growing message is handed out exactly once | medium, not executed | AgentEventRouting.AnnotationCountSkipsLaterEvent | AgentEventRouting.AgentEventCountDeliversEachOnce |
| backend/app/agents/new_workflow.py:171 | the join step's first line prints `ev.result`; GetCritiqueEvent declares only `input`, so the read raises AttributeError before `collect_events` is called | any GetCritiqueEvent, e.g. the one `market_research` returns for the started pipeline: `review_initial_research` raises at once and the run fails | print `ev.input` (or nothing), then wait on `collect_events` and continue with StartFeasibilityResearchEvent | high, not executed | ResearchWorkflow.ReviewInitialResearchAsWritten | ResearchWorkflow.ReviewInitialResearch |
