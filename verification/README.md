# Blueprint agents: a verified model of the shared process

Several independently written agents can share one process and one redelivering broker. This project
models the part of the framework that lets them do so without changing what each agent does, and proves
it in Dafny. `dafny verify dfyconfig.toml` checks everything.

## What is modelled

**Deduplication and dispatch.** `Dedup` is the claim / dispatch / release protocol: any number of
deliveries, of any number of replicas, interleave step by step over one marker store, and the invariants
hold over every interleaving. The same file holds the code's own bracket around one delivery, over mutable
objects, and the proof that it is one path of the protocol. `FanOut` takes that bracket to a message offered
to several agents and redelivered as the combined answer asks, while other messages share the agents' stores.
`Dispatch` is the chain of responsibility, the runtime it binds for each handler, the index that narrows it and
the cache of that index, whose dispatch is proved to be the linear scan.

**Sessions jobs.** `RecentJobs` proves the front-evicting replay guard against a definition over the whole
history of adds. `JobLifecycle` interleaves any number of notifications at every await, raises and
cancellations included; `JobOutcomes` says what a run tells the API and how it ends. `JobHandler` is the
handler's own code, proved to take the state machine's path.

**Registry and hosting.** `Namespaces` has the qualified names and the ambient scope; `Registry` the one
ordered dictionary, renames, views and reordering, as mutable objects proved against functions;
`RegistryRuns` arbitrary sequences of those operations; `HandlerOrder` the order handlers are tried in.
`Hosting` and `Grouping` prove that a group builds for each agent what the agent builds alone, `Naming` what
that is: the components, names and order that the declarations call for. `Shareable` is the recursion that
decides what one declaration may hand to two agents, over a cyclic object graph.

**Configuration.** `Settings` is the recursive, case-insensitive merge; `ScopedConfig` the scoped views, the
agents' merges and the flattened dictionary; `Validator` the second, unmerged implementation of the lookup
and exactly when the two agree.

**Startup.** `Recovery` is the startup pass, and the recovery tasks of all agents interleaved.

Every lemma switches Dafny's automatic induction off, so what is proved by induction says so in its body.
A mutable object of the source is a class here and a loop a method with a loop; each is tied by its
postcondition to a function, and the properties are proved about that function.

## Where the code does not meet what is said of it

Each of these is a lemma that names the failing case, beside the exact condition under which the property
holds.

- A handler declaration that cannot be indexed raises once; after that the index of an earlier set of
  handlers answers for the new ones (`Dispatch.StaleExactly`, `Dispatch.SecondDispatchIsStale`).
- A delivery cancelled while it waits for its marker to be deleted is answered before the delete happened,
  so its redelivery can be acknowledged unrun (`Dedup.AckedUnrunExactly`, `Dedup.CancelledReleaseLosesEvent`).
- The release computes the key again from an event and a context that handlers may change. A failed run whose
  handlers did leaves its marker behind, and the redelivery is acknowledged unrun (`Dedup.AckedUnrunExactly`,
  `Dedup.ChangedEventLosesEvent`, `FanOut.AcknowledgedMeansAllAnswered`). And it deletes the marker of the key
  they left: exactly then another event's runs can overlap or settle twice (`Dedup.MarkerExactness`,
  `Dedup.SecondOwnerExactly`, `Dedup.ForeignDeleteOverlaps`, `Dedup.ForeignDeleteSettlesTwice`), and a message
  that an agent settled can be run again and answered TERM (`FanOut.SucceedsOnceThenNeverTerm`,
  `FanOut.OthersTakeExactly`, `FanOut.OtherMessageUndoesSuccess`).
- Renaming a component that was never registered moves the entry of another component that bears its name
  (`Registry.SetNameKeepsWellKeyedExactly`).
- A view asked explicitly for the root answers with a neighbour's component if given its full name
  (`Registry.ForeignAnswerExactly`).
- Reordering fails if a registered handler is listed twice (`Registry.ReorderMeans`).
- Agents can be grouped whatever they declare only if no agent's name followed by `_` begins another's
  (`Grouping.GroupableExactly`); and an agent can tell that it is hosted exactly by looking up a component of
  its own by the qualified name, if it has nothing of that very name (`Hosting.LookInStep`,
  `Grouping.HostingPreservesLookups`, `Grouping.OwnFullNameTellsTheHost`).
- An empty part changes the combination of outcomes if the whole is terminal (`FanOut.CombinedRegroupsExactly`).
- A fragment that spells one name twice may merge differently the second time
  (`Settings.SecondMergeAddsNothingExactly`, `Settings.TwoSpellingsMergeTwice`).
- Merging an agent's settings shows in a neighbour's view at one key, the agent's bare name, if nothing was set
  under it: the view is then refused what it got the default for (`ScopedConfig.MergeShowsExactly`).
- The validator passes over a null, or over a value where a table is expected, that stops the process's own
  lookup (`Validator.ValidatorAgreesExactly`, `Validator.NullInTheSectionSplitsThem`).
- The flattened dictionary leaves out root tables that `get()` still answers (`ScopedConfig.ResolvedAgreesExactly`).

## Model

| member | source | states |
|---|---|---|
| Dedup.KeyIdentifiesEvent | src/blueprint/agents/handler/handler_chain.py:657-684 | An event has a dedup key exactly when neither its id nor its source is blank (CloudEvents v1.0, section "REQUIRED Attributes"); two keyed deliveries are one event exactly when their ids, and their sources, are equal up to the blanks around them and the connections agree -- for attributes without such blanks, exactly when the attributes are equal. |
| Dedup.StripMeans | src/blueprint/agents/handler/handler_chain.py:672-673 | Stripping takes blanks off both ends, all of them, and nothing else. |
| Dedup.RunKeepsInv | src/blueprint/agents/handler/handler_chain.py:382-402 | Every step of every interleaving keeps: a present marker belongs to the delivery that set it, whatever the handlers leave in event and context. |
| Dedup.MarkerExactness | src/blueprint/agents/handler/handler_chain.py:591-655 | In every state of a run every owner of a key's marker has it if and only if no step of the run deletes that marker for another event. Then a marker is present exactly when one delivery owns it, and once one delivery of the key settled no other runs; and in any case a present marker belongs to the delivery that set it. |
| Dedup.SecondOwnerExactly | src/blueprint/agents/handler/handler_chain.py:591-655 | From any state in which the owners have the marker, deleting it for another event is the one step after which a new delivery of the event can claim while another delivery owns the claim. |
| Dedup.DuplicateNeverDeletes | src/blueprint/agents/handler/handler_chain.py:389-393 | A delivery skipped as a duplicate never changes the markers, whichever way it goes on. |
| Dedup.SkipMeetsOwner | src/blueprint/agents/handler/handler_chain.py:591-622 | When deliveries of a key follow one another and every owner has its marker, a claim runs into the marker of a settled delivery exactly when no answered delivery's delete is outstanding and none left its marker behind by changing its key. |
| Dedup.NothingAckedUnrun | src/blueprint/agents/handler/handler_chain.py:395-402 | Under a broker that waits for every answer, with no claim while a delete is outstanding and no marker left behind by a changed event, a duplicate is acknowledged only if a delivery of its key ran to a normal return and settled. |
| Dedup.AckedUnrunExactly | src/blueprint/agents/handler/handler_chain.py:645-655 | The condition is exact: the delivery that set the marker settled if and only if it was neither cancelled during its release nor failed after its handlers changed the key; so, if no step deleted this marker for another event, an acknowledged duplicate was run before if and only if no delete is outstanding and no marker orphaned. |
| Dedup.CancelledReleaseLosesEvent | src/blueprint/agents/handler/handler_chain.py:645-654 | For every event there is a run, under a waiting broker, that acknowledges it although no delivery of it settled and leaves no marker of it. |
| Dedup.ChangedEventLosesEvent | src/blueprint/agents/handler/handler_chain.py:645-655 | For every event and every other key its handlers may leave there is such a run in which nothing is cancelled: the failed run's marker stays. |
| Dedup.ForeignDeleteOverlaps | src/blueprint/agents/handler/handler_chain.py:645-655 | For every two events there is a run, nothing cancelled, in which one's release deletes the other's marker and two claimed runs of the other overlap. |
| Dedup.ForeignDeleteSettlesTwice | src/blueprint/agents/handler/handler_chain.py:645-655 | And one, under a broker that waits for every answer, in which an event settles twice. |
| Dedup.FailedDeliveryIsRetried | src/blueprint/agents/handler/handler_chain.py:395-402 | After a failed delivery whose handlers left its key, the next delivery claims the key and runs; and if no step deleted this marker for another event, it is skipped exactly when they left another key. |
| Dedup.BracketFollowsProtocol | src/blueprint/agents/services/eventing/event_processing_service.py:181-224 | The code's bracket around one delivery is a path of the interleaved protocol, with the same markers and the same answer, whatever key the run leaves for the release to compute. |
| Dedup.HandlerChain.ClaimMarker | src/blueprint/agents/handler/handler_chain.py:591-622 | The claim proceeds exactly for an unkeyed event, dedup off or an absent marker; it sets the marker and the delivery's flag together. |
| Dedup.HandlerChain.Release | src/blueprint/agents/handler/handler_chain.py:624-655 | Release deletes a marker only for a delivery that holds its claim, and drops the claim. |
| Dedup.HandlerChain.Process | src/blueprint/agents/handler/handler_chain.py:368-402 | Which deliveries run, what is left in the context, and which markers remain when the dispatch returns or is ended early. |
| Dedup.HandlerChain.ProcessEvent | src/blueprint/agents/services/eventing/event_processing_service.py:181-224 | The whole bracket does to the markers, the run and the answer what the specification function says, for every behaviour of the handlers. |
| FanOut.DispositionForMeans | src/blueprint/agents/models/errors.py:88-110 | A raised failure is terminal exactly when it is an invalid-event or critical error and no retryable one; it never acknowledges. |
| FanOut.DispatchMeans | src/blueprint/agents/io/api/eventing/dapr.py:379-414 | One agent's part of a delivery, exactly: when it runs, which of the three answers it gives for every set of error classes, and what it does to its own marker and to any other. |
| FanOut.CombinedDependsOnSet | src/blueprint/agents/models/errors.py:113-148 | The combined answer depends only on which outcomes occurred. |
| FanOut.CombinedRegroups | src/blueprint/agents/models/errors.py:113-148 | Combining part by part gives the answer of the whole, for non-empty parts. |
| FanOut.CombinedRegroupsExactly | src/blueprint/agents/models/errors.py:138-148 | Grouping into parts leaves the answer as it is exactly when no part is empty or the whole is not terminal. |
| FanOut.OneRound | src/blueprint/agents/io/api/eventing/dapr.py:369-414 | One delivery to all agents: each gets its own outcome whatever the others do, and the answer is the combination. |
| FanOut.SucceedsOnceThenNeverTerm | src/blueprint/agents/handler/handler_chain.py:389-402 | Over any run of redeliveries, whatever other messages do to the stores in between: an agent that once settled dispatches the message again in exactly the rounds in which it is not paused and its marker was taken away by something else since; and the answer is TERM only in such a round. |
| FanOut.OthersTakeExactly | src/blueprint/agents/handler/handler_chain.py:624-655 | Other messages of the agent never set this message's marker, and take it away exactly if a dispatch of one of them fails and leaves this key. |
| FanOut.OtherMessageUndoesSuccess | src/blueprint/agents/io/api/eventing/dapr.py:369-414 | For every message and every other one of the agent there is a run in which the agent settles, the other message fails between two rounds leaving this key, the agent dispatches again and the answer is TERM. |
| FanOut.AcknowledgedMeansAllAnswered | src/blueprint/agents/models/errors.py:113-148 | When redelivery stops, an agent judged the message undeliverable in the last round, or another delivery of it claimed it since, or the agent's latest dispatch settled it exactly if it did not fail leaving another key; and if nothing else touched its marker, the agent ever settled exactly when no dispatch of it ever did. |
| Dispatch.CandidatesAreWanted | src/blueprint/agents/handler/handler_chain.py:109-148 | The index's candidates for a type are the handlers that declared it or declared nothing, in the order of all handlers. |
| Dispatch.ScanOfWanted | src/blueprint/agents/handler/handler_chain.py:446-489 | If declared handlers purely refuse other types, asking only the candidates ends the same way, runs the same handlers in the same order and threads the same context, runtime binding included. |
| Dispatch.ScanMeans | src/blueprint/agents/handler/handler_chain.py:446-489 | A dispatch is a series of turns: from the first handler on, each starting from the context the one before left, going on after a refusal or a pass, and ended by an answer, a raise or a runtime that cannot be had; a handler that runs is given the context with its runtime bound. |
| Dispatch.BindRuntimeMeans | src/blueprint/agents/handler/handler_chain.py:492-550 | The runtime bound is the one of the handler's own choice, else of the caller's, else the only one registered; without any the context stays as it is, the rest of it always does, and binding fails exactly if the deciding name leads nowhere. |
| Dispatch.OwnChoiceWins | src/blueprint/agents/handler/handler_chain.py:531-535 | A handler that makes a choice of its own is given the same context whatever runtime the caller asked for. |
| Dispatch.CallersChoiceWins | src/blueprint/agents/handler/handler_chain.py:531-541 | A runtime the caller names is bound, if the handler names none, whatever runtimes are registered. |
| Dispatch.RanInOrder | src/blueprint/agents/handler/handler_chain.py:408-421 | The handlers that run do so in priority order. |
| Dispatch.DeclarableMeans | src/blueprint/agents/handler/handler_chain.py:151-175 | What may be declared: a non-empty type without whitespace and without a character of a pattern. |
| Dispatch.NeverStaleWhileDeclarable | src/blueprint/agents/handler/handler_chain.py:429-444 | After any sequence of registrations, starts and dispatches the cached index answers for the handlers registered now, if they can be indexed. |
| Dispatch.DispatchRefinesScan | src/blueprint/agents/handler/handler_chain.py:446-489 | After any such sequence, dispatching through the cached index is asking every handler in order. |
| Dispatch.StaleExactly | src/blueprint/agents/handler/handler_chain.py:440-444 | The answer is not what the registered handlers call for exactly when they cannot be indexed, an index exists and the refusal was already raised once. |
| Dispatch.SecondDispatchIsStale | src/blueprint/agents/handler/handler_chain.py:440-444 | A concrete sequence: the first dispatch raises, the second answers from the old index and never asks a new handler. |
| Dispatch.HandlerChain.RefreshIndex | src/blueprint/agents/handler/handler_chain.py:423-427 | Rebuilding notes the handlers even when it raises, and then keeps the old index. |
| Dispatch.HandlerChain.CandidatesFor | src/blueprint/agents/handler/handler_chain.py:429-444 | The cached lookup changes index and noted handlers, and answers, as the specification function says. |
| Dispatch.HandlerChain.AskInTurn | src/blueprint/agents/handler/handler_chain.py:463-489 | The loop over candidates computes the chain of responsibility: ending, handlers run and context. |
| Dispatch.HandlerChain.DispatchEvent | src/blueprint/agents/handler/handler_chain.py:446-489 | One dispatch keeps the index in step and, for declarable handlers that purely refuse, does what asking all handlers in priority order does; the handlers that run do so in that order. |
| RecentJobs.PositionMeans | src/blueprint/agents/handler/sessions_job_handler.py:92-98 | An entry of the ordered dictionary is the last add of its id, and what stands after it is exactly the ids added since. |
| RecentJobs.WindowMeansRemembered | src/blueprint/agents/handler/sessions_job_handler.py:77-114 | What is stored is exactly the ids last added within the lifetime with fewer than the maximum of other ids added since. |
| RecentJobs.YoungerLatest | src/blueprint/agents/handler/sessions_job_handler.py:108-114 | For a dictionary in time order, capping the number and expiring the old commute. |
| RecentJobs.AddExtendsWindow | src/blueprint/agents/handler/sessions_job_handler.py:92-98 | One add to the evicted and capped dictionary agrees, at every later cutoff, with one add to the whole history. |
| RecentJobs.WindowCount | src/blueprint/agents/handler/sessions_job_handler.py:104-106 | The number stored is the number of remembered ids. |
| RecentJobs.RecentJobIds.EvictExpired | src/blueprint/agents/handler/sessions_job_handler.py:108-114 | Evicting from the front while the front is old is filtering everything by age. |
| RecentJobs.RecentJobIds.Add | src/blueprint/agents/handler/sessions_job_handler.py:92-98 | An add keeps time order, distinct ids, the size bound and the agreement with the history. |
| RecentJobs.RecentJobIds.Contains | src/blueprint/agents/handler/sessions_job_handler.py:100-102 | Membership is the definition over the whole history of adds. |
| RecentJobs.RecentJobIds.Length | src/blueprint/agents/handler/sessions_job_handler.py:104-106 | The length is the number of remembered ids. |
| JobLifecycle.GuardsAreExact | src/blueprint/agents/handler/sessions_job_handler.py:260-339 | Over every interleaving: one active run per job at most, the in-flight set is exactly the jobs being handled, and an id reached the replay guard exactly when a run of it ended with a returned terminal call. |
| JobLifecycle.CallsFollowTheLifecycle | src/blueprint/agents/handler/sessions_job_handler.py:296-396 | The calls of any run form one of six shapes: complete and fail only after a valid payload and a returned start, never two terminal verbs, never more attempts than allowed. |
| JobOutcomes.OutcomeDecides | src/blueprint/agents/handler/sessions_job_handler.py:274-434 | Over every interleaving, for every run, read off its own events: it completes exactly after a success, fails exactly after a signalled or unrecoverable failure, cancels exactly after an invalid payload or event; it is done exactly when a terminal call returned; and it raises for a retry exactly on transport errors -- exhausted, for a terminal call -- or when processing asks for one, and otherwise exactly on the other endings. |
| JobLifecycle.RememberedJobIsNotCalled | src/blueprint/agents/handler/sessions_job_handler.py:260-295 | An event that makes a run issue an API call belongs to a job the replay guard does not remember then. |
| JobLifecycle.EndDecidesRedelivery | src/blueprint/agents/handler/sessions_job_handler.py:260-339 | However much other jobs do in between, the next notification of a job is ignored exactly when its run ended with a returned terminal call, less than the lifetime has passed since, and fewer than the maximum of other ids were remembered since. |
| JobHandler.TerminalWithRetry | src/blueprint/agents/handler/sessions_job_handler.py:398-434 | The retry loop goes on only after a transport error and an undisturbed sleep, within the allowed attempts, and ends as written, exhausted or propagated exactly by its last reply. |
| JobHandler.ReportFollows | src/blueprint/agents/handler/sessions_job_handler.py:341-381 | A whole report -- every attempt, sleep and ending -- is the path the interleaved state machine takes for the same replies. |
| JobHandler.SessionsJobHandler.Report | src/blueprint/agents/handler/sessions_job_handler.py:341-381 | Completing or failing issues the calls of that path, and remembers the id exactly when a call returned. |
| JobHandler.SessionsJobHandler.RunJob | src/blueprint/agents/handler/sessions_job_handler.py:274-337 | Fetch, validate, start, process and report end, and issue calls, as the state machine does for the same replies, and as each reply and ending calls for. |
| JobHandler.SessionsJobHandler.HandleEvent | src/blueprint/agents/handler/sessions_job_handler.py:260-339 | A duplicate issues no call; otherwise the run follows the state machine and its calls and ending are those its replies call for; the in-flight set is restored on every way out and the id is remembered exactly when a terminal call returned. |
| JobHandler.AnsweredMeans | src/blueprint/agents/handler/sessions_job_handler.py:296-337 | Of the calls issued for one notification: CompleteJob exactly after a success, FailJob exactly after a failure, CancelJob exactly for what was found invalid. |
| JobHandler.HandlerCallsHaveShape | src/blueprint/agents/handler/sessions_job_handler.py:260-339 | Whatever the replies, the calls issued for one notification have one of the six shapes. |
| Namespaces.ValidateMeans | src/blueprint/agents/component/namespace.py:66-134 | What passes is the root or a name of the alphabet that is no reserved section, unchanged. |
| Namespaces.MatchesMeans | src/blueprint/agents/component/namespace.py:51-52 | The alphabet, character by character. |
| Namespaces.RefusalMeans | src/blueprint/agents/component/namespace.py:98-134 | Which of the ordered checks refuses a name, exactly. |
| Namespaces.QualifiedInjective | src/blueprint/agents/component/namespace.py:242-263 | Within one agent, qualified names tell base names apart. |
| Namespaces.KeysClashExactly | src/blueprint/agents/component/namespace.py:242-263 | Two agents' components, all with non-empty names, can share a key exactly when one agent's name and the separator begin the other's name. |
| Namespaces.Ambient.Construct | src/blueprint/agents/component/component.py:141-150 | A component carries its explicit namespace if non-empty, else the one in force; an illegal one raises and builds nothing. |
| Namespaces.Ambient.Run | src/blueprint/agents/component/namespace.py:164-218 | For every nesting of both scopes, with normal and exceptional exits, the namespace in force is restored and every component built carries the one its position in the program determines. |
| Namespaces.Ambient.RunInside | src/blueprint/agents/component/namespace.py:164-190 | One scope validates, sets and resets, on every way out. |
| Namespaces.ScopesMean | src/blueprint/agents/component/namespace.py:164-218 | A construction scope without a namespace does not show at any depth; any other scope decides for what is built directly inside it, and an explicit namespace for its component. |
| Registry.SetNameKeepsWellKeyed | src/blueprint/agents/component/registry.py:521-561 | Renaming a registered component keeps every key the qualified name of its component and loses no component. |
| Registry.SetNameKeepsWellKeyedExactly | src/blueprint/agents/component/component.py:163-180 | A rename keeps the invariant exactly when the component is registered or keeps its name. |
| Registry.SetNameMeans | src/blueprint/agents/component/registry.py:521-561 | Renaming a registered component is refused exactly if another holds the name; otherwise it is held under its new name and every other component as before. |
| Registry.ViewLookupMeans | src/blueprint/agents/component/registry.py:222-258 | A view's lookup by name finds the agent's own component of that base name, else only a root one or its own by full name, whatever names clash. |
| Registry.ViewLookupNone | src/blueprint/agents/component/registry.py:222-258 | Exactly when a view's lookup finds nothing. |
| Registry.EffectiveMeans | src/blueprint/agents/component/registry.py:201-220 | A view refuses exactly the lookups that name another agent. |
| Registry.OwnNameIsNoQuestion | src/blueprint/agents/component/registry.py:201-220 | A view that names its own agent gets the answers it gets without naming any, by name, by class and as a list. |
| Registry.ViewIgnoresNeighbours | src/blueprint/agents/component/registry.py:222-258 | Two registries that agree on the agent's own and the root's components give the view the same answers. |
| Registry.ForeignAnswerExactly | src/blueprint/agents/component/registry.py:191-258 | A view answers with a neighbour's component exactly when asked explicitly for the root by that component's full name. |
| Registry.TypeLookupMeans | src/blueprint/agents/component/namespace.py:297-325 | A view's lookup by class finds the only instance among the agent's own components, or, if it has none, the only one at the root; two at the level that decides are an error, and no other agent's component counts. |
| Registry.TypeLookupStaysHome | src/blueprint/agents/component/registry.py:563-610 | By class a view never answers with another agent's component, not even when asked explicitly for the root. |
| Registry.TypeListMeans | src/blueprint/agents/component/registry.py:612-632 | Listing by class gives exactly the instances of the namespace asked for, of the view's own if none is, or of all on the application's registry. |
| Registry.ReorderMeans | src/blueprint/agents/component/registry.py:683-702 | Reordering fails exactly when a registered component is listed twice; otherwise it keeps every entry under its key, the unlisted in place, and gives the listed slots the listed order. |
| Registry.Registry.Construct | src/blueprint/agents/component/component.py:141-156 | Constructing a component registers it under its qualified name, or is refused and changes nothing. |
| Registry.Registry.UpdateComponentName | src/blueprint/agents/component/registry.py:521-561 | A rename moves the entry to the end under the new key, or is refused for an absent name, another agent's entry or a taken name, and then changes nothing. |
| Registry.Registry.SetComponentName | src/blueprint/agents/component/component.py:163-180 | The name setter moves the entry and then lets the component take the name; on refusal neither changes. |
| Registry.Registry.LookupComponent | src/blueprint/agents/component/registry.py:222-258 | The two-step lookup returns the object the specification function names. |
| Registry.Registry.ReorderComponents | src/blueprint/agents/component/registry.py:683-702 | The in-place reordering computes the specification function, and a refusal changes nothing. |
| RegistryRuns.RunKeeps | src/blueprint/agents/component/registry.py:488-561 | Over every sequence of registrations, renames of registered components and reorderings, keys stay the qualified names of their components, one to one, and no component is dropped or changes its agent. |
| RegistryRuns.ApplyMeans | src/blueprint/agents/component/registry.py:488-561 | What each operation does to the dictionary, refusals included: registration appends, a rename moves one component under its new name, reordering permutes. |
| RegistryRuns.EveryLookupMeans | src/blueprint/agents/component/registry.py:191-258 | In every registry that can come about, a view finds its own component of that name, else a root one or its own by full name. |
| HandlerOrder.SortedBefore | src/blueprint/agents/handler/handler_chain.py:408-421 | The sort by priority leaves ties in the order they stood in. |
| HandlerOrder.RestoredOrder | src/blueprint/agents/app_builder.py:892-912 | After reordering, one declared handler stands before another exactly when it was declared before it. |
| HandlerOrder.TryOrderIsPriorityThenDeclaration | src/blueprint/agents/app_builder.py:877-912 | From any registration order, reordering, then the priority sort, then the index's filtering try handlers by (priority, declaration order). |
| Hosting.LookInStep | src/blueprint/agents/component/registry.py:91-119 | What a lookup made during construction -- by name, by class, or through the typed getters, which try a class's default name before the class -- finds in the group, read off the standalone build; by class it is always the same component, and by name exactly when the name asked for is not a qualified name of the agent's own whose unqualified part alone is held and answers otherwise. |
| Hosting.RenamedInStep | src/blueprint/agents/app_builder.py:694-699 | A declared name override does in the group what it does alone; only a key another agent holds can stop it. |
| Naming.MakeMeans | src/blueprint/agents/app_builder.py:645-700 | A component a declaration's call makes is refused exactly if its name is taken; otherwise it is registered under its qualified name, an instance of its classes, whatever the call does next. |
| Naming.FindsMeans | src/blueprint/agents/component/registry.py:91-119 | What each lookup of a call finds, by name, by class or through the typed getters, alone or through a view, as properties of the registry. |
| Naming.ReturnedMeans | src/blueprint/agents/app_builder.py:685-693 | A call that does not raise only adds components, numbered on; what it returns is the one it made of that number, or the one its lookup finds. |
| Naming.ConstructMeans | src/blueprint/agents/app_builder.py:645-700 | A declaration with a name: refused exactly if another component holds the name; otherwise the component returned is held under it, every other as before, and a handler is noted next in declaration order. Without one nothing is renamed. |
| Naming.DeclaredNameIsFound | src/blueprint/agents/app_builder.py:857-890 | Alone, the component a declaration returns is in the end found under the name declared for it, or the one it was built with, unless a later declaration names it again. |
| Naming.DeclaredNameIsFoundHosted | src/blueprint/agents/agent_group.py:429-440 | In a group, the agent's view finds the same component under the declared name. |
| Naming.DeclaredHandlersInOrder | src/blueprint/agents/app_builder.py:892-912 | Handlers that two declarations return stand in the built registry in the order of the declarations. |
| Hosting.AllInStep | src/blueprint/agents/app_builder.py:645-700 | An agent none of whose standalone lookups tells that it is hosted constructs the same components in the group as alone; only a key another agent holds can stop the group where the agent alone would go on. |
| Grouping.ReorderHosted | src/blueprint/agents/app_builder.py:892-912 | Restoring declaration order for the whole group succeeds exactly when it does for each agent, and then restores each agent's own. |
| Grouping.GroupIsItsAgents | src/blueprint/agents/agent_group.py:429-440 | If a group of agents whose own lookups tell nothing assembles, every agent builds alone, and the group's registry is the agents' registries one after the other, names qualified and components numbered on. |
| Grouping.HostingPreservesRegistries | src/blueprint/agents/agent_group.py:429-440 | Each agent's part of the group's registry, projected to base names, is the sequence its standalone build produces. |
| Grouping.HostingPreservesLookups | src/blueprint/agents/component/registry.py:222-258 | What an agent's view answers for every name, from what the standalone registry holds; it is the component of the same declaration exactly when the name is not the agent's own prefix before a name it holds, itself held by nobody. |
| Grouping.HostingPreservesTypeLookups | src/blueprint/agents/component/registry.py:563-632 | Whatever classes the components are instances of, an agent's view in the group answers by class what its standalone registry does -- the same component, none, or an ambiguity -- and lists the same components. |
| Grouping.GroupableExactly | src/blueprint/agents/app_builder.py:147-172 | Agents of given names can be grouped whatever they declare, provided each builds alone, exactly when no name followed by the separator begins another. |
| Grouping.OwnFullNameTellsTheHost | src/blueprint/agents/component/registry.py:246-258 | For every agent name there is a declaration, looking up its own component by the qualified name, that builds alone and not hosted. |
| Grouping.AppBuilder.Replay | src/blueprint/agents/agent_group.py:429-438 | Replaying records every agent's declarations in order, each in its agent's namespace, and restores the scope. |
| Grouping.AppBuilder.ConstructDeclarations | src/blueprint/agents/app_builder.py:857-890 | One pass in call order, then the declared handlers in declaration order. |
| Grouping.Assemble | src/blueprint/agents/agent_group.py:429-440 | Replaying and building the agents gives what the specification says -- of which `Naming` says what every declaration leaves -- and on success the agents' own registries side by side. |
| Shareable.ShareableMeansNoStateReachable | src/blueprint/agents/agent_group.py:76-105 | On every finite, possibly cyclic object graph the recursion ends, and answers yes exactly when no object that is not shareable is reachable. |
| Shareable.SimplePathRefuses | src/blueprint/agents/agent_group.py:87-88 | Cutting at objects already seen hides no state beyond unseen ones. |
| Shareable.RefuseSharedState | src/blueprint/agents/agent_group.py:442-513 | A declaration is refused exactly when it serves two agents and hands over an object that state is reachable from. |
| Settings.FillAt | src/blueprint/agents/config/config.py:851-883 | For a fragment with case-distinct names and any target, path by path: a path takes the incoming value exactly when the target defines neither it nor a leaf on the way to it; two tables are merged; anything else keeps its value. |
| Settings.OpenMeans | src/blueprint/agents/config/config.py:869-883 | A path is open exactly when no prefix of it leads to a leaf and the path itself leads nowhere. |
| Settings.SameMeans | src/blueprint/agents/config/config.py:866-872 | Two names are one exactly when they are equal letter by letter, up to the 26 capitals. |
| Settings.SpellingDecidesNothing | src/blueprint/agents/config/config.py:851-883 | Target and fragment may be respelled in other capitals at every depth: the merge puts the same values in the same places and reports the same paths, respelled. No premise on either tree. |
| Settings.OverrideStands | src/blueprint/agents/config/config.py:851-872 | A value the target has under any capitalisation stands, and nothing is added or reported. |
| Settings.FillKeepsLeaves | src/blueprint/agents/config/config.py:851-883 | No leaf of the target changes or disappears, on all trees, colliding spellings included. |
| Settings.AddedExactly | src/blueprint/agents/config/config.py:869-883 | For a fragment with case-distinct names, the report is exactly the paths at which something was inserted. |
| Settings.SecondMergeAddsNothing | src/blueprint/agents/config/config.py:851-883 | Merging a case-distinct fragment a second time changes nothing and reports nothing, whatever the target. |
| Settings.SecondMergeAddsNothingExactly | src/blueprint/agents/config/config.py:851-883 | For every target and every fragment, however spelled, a second merge reports nothing exactly when every name has one value that stands for it -- the target's or the first that comes in -- which, with the tables merged into it, has a place for all each spelling says, at every depth; and then it changes nothing. |
| Settings.InsertedWholeExactly | src/blueprint/agents/config/config.py:869-883 | A table the target does not name is inserted as it is, and merging it again adds nothing exactly when it absorbs itself. |
| Settings.Dictionary.FillMissing | src/blueprint/agents/config/config.py:851-883 | The loop over the incoming entries, filling the target in place with its map of spellings, computes the specification and its report. |
| ScopedConfig.NeighboursDoNotShow | src/blueprint/agents/config/config.py:1057-1117 | Two trees that differ only inside other agents' sections give a view the same outcome for every key, bare or dotted. |
| ScopedConfig.ViewAnswers | src/blueprint/agents/config/config.py:1057-1150 | What a view answers for every key, bare or dotted, exactly: its own value, a refusal, the root's value or the default. |
| ScopedConfig.ValidAgentsAreNoSections | src/blueprint/agents/component/namespace.py:54-133 | Agents whose names pass validation are declared under those very names and share none with the sections every view may read, which is what the config's results on views suppose. |
| ScopedConfig.MergeTouchesOwnSection | src/blueprint/agents/config/config.py:736-747 | A merge fills its own agent's section from the fragment, less the refused keys, and leaves every other key of the tree alone. |
| ScopedConfig.RefusedKeysStayUnset | src/blueprint/agents/config/config.py:822-849 | What a merge makes of each key of the agent's section: a process-wide or deployment key stays as it was whatever the file says, any other is filled in. |
| ScopedConfig.MergeRefusals | src/blueprint/agents/config/config.py:729-741 | Which merges are refused, and why, exactly. |
| ScopedConfig.MergesCommute | src/blueprint/agents/config/config.py:736-747 | The order of different agents' merges changes no key, nor whether they succeed. |
| ScopedConfig.MergeShowsExactly | src/blueprint/agents/config/config.py:736-747 | A neighbour's view reads a key differently after a merge exactly when the key is the bare name of the agent merged, the view says nothing of its own under it, it is not special-cased, and the merge is what makes it a section. |
| ScopedConfig.StrippedMeans | src/blueprint/agents/config/config.py:922-940 | The root entries the flattened dictionary leaves out: the agent's own section, what is named like an agent with a view, and the unshared sections. |
| ScopedConfig.ResolvedAgreesExactly | src/blueprint/agents/config/config.py:922-953 | The flattened dictionary agrees with get() on a bare key it answers exactly when the agent sets the key, or the root does not, or the root's entry is not stripped. |
| ScopedConfig.ResolvedAgreesOnPlainKeys | src/blueprint/agents/config/config.py:885-953 | They agree on every bare key that is no agent's name, no unshared root table and not special-cased, for every tree and set of views. |
| ScopedConfig.Config.MergeAgentSettings | src/blueprint/agents/config/config.py:736-755 | The merge changes the tree as specified and reports what was added, or refuses and leaves the tree alone; either way the agent is declared. |
| ScopedConfig.Config.ResolvedSettings | src/blueprint/agents/config/config.py:922-953 | The two loops that strip and overlay give, for every name, what the specification says. |
| Validator.LookupIsAt | src/blueprint/agent_generator/cli/commands/validate.py:97-107 | On one source the validator's walk finds what the path leads to, unless that is null. |
| Validator.FillAllAt | src/blueprint/agents/config/config.py:851-883 | What any number of merged sources hold at a path: what the first source to say anything there says, unless something above is blocked. |
| Validator.AgentViewIs | src/blueprint/agent_generator/cli/commands/validate.py:239-251 | The validator's list of sources reads like the agent's section, its kept files and the tree in turn. |
| Validator.FilesMergeExactly | src/blueprint/agents/config/config.py:729-741 | An agent's files merge exactly when none names the agent itself and what the tree has under its name, if anything is to be merged there, is a section or nothing. |
| Validator.ValidatorAgreesExactly | src/blueprint/agent_generator/cli/commands/validate.py:119-137 | For every leaf key the process answers, validator and process agree exactly when no source that says null there, or no table above, precedes one that sets a value other than the root's. |
| Validator.ValidatorAgreesOnCompatibleSources | src/blueprint/agent_generator/cli/commands/validate.py:119-137 | For sources of compatible shape, first-source-wins lookup equals merging the files and doing the scoped get. |
| Validator.NullInTheSectionSplitsThem | src/blueprint/agent_generator/cli/commands/validate.py:103-106 | A null in the section makes them differ, for every agent and every key the file may set. |
| Recovery.AppBuilder.StartComponent | src/blueprint/agents/app_builder.py:1394-1419 | A failure aborts the start exactly when it is deterministic or the component is the root's or a critical agent's; otherwise it is noted and latches the agent down. |
| Recovery.AppBuilder.StartAll | src/blueprint/agents/app_builder.py:1676-1716 | The process comes up exactly when no failure is deterministic or of the root or a critical agent; then exactly the agents with failed components are down, none of them critical or the root, with those components in start order. |
| Recovery.AppBuilder.RecoverAgent | src/blueprint/agents/app_builder.py:1546-1577 | If components fail finitely often, recovery makes exactly the expected attempts, in order, in one round more than there are failures, and then releases the latch. |
| Recovery.RecoveryIsOrdered | src/blueprint/agents/app_builder.py:1521-1577 | Over every interleaving of recoveries: components start in the order they failed in, none before the ones ahead of it, and the latch is released only when none is pending, after failures + 1 rounds. |
| Recovery.NeverStuck | src/blueprint/agents/app_builder.py:1546-1577 | As long as an agent is latched down its recovery has a next step, whatever the others do. |
| Recovery.RecoveryEnds | src/blueprint/agents/app_builder.py:1546-1577 | A recovery of n components with f failures takes at most 2f + n + 2 steps, and exactly that many when it is over. |
| Recovery.EveryComponentStartsOnce | src/blueprint/agents/app_builder.py:1394-1419 | Over startup and any interleaving of recoveries, every component starts at most once, and exactly once when its agent is not latched down. |

## Left out

- Assumptions of the dedup model, as its documentation states them: no marker expires during a run, the
  process is not killed, the cache is reachable, and nothing cancels a delivery inside the claim itself.
- Dedup.RunKeepsInv: what handlers do to the context reaches the key only; the chain's own two flags in it are left alone.
- The broker, the cache, the sessions API and the transports are steps or replies of the model, not code.
- Dedup.HandlerChain.ProcessEvent: runs one delivery without interleaving; interleaving is in the protocol.
- Dispatch.HandlerChain.DispatchEvent: handlers are pure functions of event and context here, and what they declare does not change while they are registered; log lines, spans and the one-time warning about several runtimes are not modelled.
- JobHandler.SessionsJobHandler.HandleEvent: handles one notification without interleaving, which is in `JobLifecycle`; payload parsing, error texts and log lines are not modelled, and clock readings are passed in.
- RecentJobs.RecentJobIds.Add: takes its two clock readings as arguments, and a maximum below zero is not modelled.
- Grouping.Assemble: starts after the refusals and the merges of settings; of the refusals only the one for shared state is modelled (`Shareable`). It declares components whose constructors take their namespace from the scope in force, and does not model constructors that name another agent explicitly, caches, health checkers or the components the framework wires itself.
- Hosting.LookInStep: the lookups a declaration makes ask for one component; `has_component` and the listings by class are not steps of a declaration here, though what they list is preserved (`Grouping.HostingPreservesTypeLookups`).
- A group refuses already-built instances, so they appear only in the handler order, where any registration order is allowed.
- Registry.Registry.LookupComponent: the caches and executors of the registry are not modelled, nor the object identity of views.
- Settings.AddedExactly: the report is in insertion order and as lists of names; sorting it and joining the names with dots is left out.
- Settings: case folding is ASCII; Dynaconf's loading, environment overrides, list merging and `dot_placeholder` rewriting are outside, as is flattening a file's environment sections, which only adds a precedence of four layers.
- ScopedConfig.Config.MergeAgentSettings: starts from a fragment already read and flattened; the file checks before it are left out.
- ScopedConfig.Config.ResolvedSettings: names stand for their upper-cased spelling, and the tree is required to spell every name once, as Dynaconf's own tree does.
- Validator.ValidatorAgreesExactly: is about leaf keys of sources that spell every name once; a whole table is merged by the process and not by the validator.
- Recovery.AppBuilder.StartAll: takes the start order as given; how components are grouped into it, shutdown and the health checks that decide after a latch is released are left out.
- Telemetry, logging, routing, thread pools, the event-loop watchdog, the agent map's reading and the scaffolding generator hold no property of this kind.
