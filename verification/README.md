# A verified model of the ADK gateway's engines

The gateway connects messaging channels to LLM agents. Most of it is plumbing, but it holds a number
of self-contained engines with state of their own. This project models those engines in Dafny and
proves what they guarantee, over every input, every run and every reachable state:

- **Graph workflows** (`GraphWorkflow.dfy`, `WorkflowPaths.dfy`, `WorkflowFolds.dfy`,
  `Conditions.dfy`, `Switch.dfy`): building, conditional routing, per-key reducers, checkpoints,
  interrupts and the iteration cap. Running a node is an arbitrary oracle that returns any output or
  any error, different at every step.
- **Cron scheduling** (`Cron.dfy`): the job table, the loops it spawned, their cancellation tokens
  and hot reload.
- **Webhook rate limiting** (`RateLimiter.dfy`): a fixed window over a monotone clock that is read
  up to twice per request.
- **Heartbeat stripping** (`Heartbeat.dfy`), **message splitting** (`Delivery.dfy`), **streaming
  delivery** (`Streaming.dfy`), the **event collector** (`EventStream.dfy`), and what the three
  together show the user (`Pipeline.dfy`).
- **Configuration encryption** (`ConfigEncryption.dfy`): the two tree walks, with the cipher, the
  byte encoding and lower-casing as foreign functions of which only the inverse laws are assumed.
- **Agent lifecycle** (`AgentLifecycle.dfy`): registry, files, proxy pool and boot repair; every
  tool is a sequence of elementary steps, so that a crash can fall between any two.
- **Health monitoring** (`HealthMonitor.dfy`), **access control** (`AccessControl.dfy`) and the
  build script's **calendar** (`Calendar.dfy`).

`Wrappers.dfy`, `Json.dfy` and `Text.dfy` hold what they share. Where the source mutates an object,
the model has a class whose methods are proved equal to operations on values (`View()` before and
after); the theorems are about the values. Where the source computes, the model has functions.
Definitions that a theorem shares with the code it is about are themselves pinned, by lemmas whose
names end in `Means`, `Keeps`, `Calls`, `At` or the like, to plain statements over the inputs.

`dafny verify dfyconfig.toml` checks everything.

## Conventions

- `f64` is `real`, so rounding, infinities and NaN do not occur; `u32` and `u64` counters are `nat`.
  Printing and parsing of numbers are parameters (`Numerals`).
- Times are ticks of one monotone clock. Where the code reads the clock twice, so does the model.
- Texts in `Delivery.dfy` are sequences of one-byte characters, because the code slices by byte.
- Outcomes of calls into other systems (channel replies, builds, spawns, file writes, cipher
  failures, nonces) are inputs, and every theorem holds for all of them unless it names a condition.

## Where the code and its description differ

- The limiter is described as a sliding window of 60 requests per 60 seconds. It is a fixed window:
  `RateLimiter.IntervalStaysAtRateIff` counts exactly how many pass in any interval and so says when
  it stays at 60, `RateLimiter.IntervalBound` that 120 is the most, and
  `RateLimiter.IntervalBoundIsReached` that 120 do pass.
- `strip_heartbeat_turns` can need two passes; `Heartbeat.StripTwiceIff` says exactly when.
- After a streaming placeholder, several chunks overwrite one another in the same message
  (`StreamingState.PlaceholderShowsLastChunk`), so the response is shown in full iff it fits in one
  message (`Pipeline.PlaceholderShowsResponseIff`).
- A reply is one message only on a channel that names what it posts: each partial text posted without
  an id before the placeholder stays on screen (`StreamingState.OneMessageShowsCompletion`). Slack's
  `send` names nothing (src/channel/slack.rs:277-282).
- Partial edits are described as limited to one a second. The retry of a failed edit is not recorded,
  so the next edit may follow it at once (`StreamingState.RetriesCanCrowd`);
  `StreamingState.PartialEditsSpaced` shows that these are the only gaps that can be too short.
- `k == v` and `k != v` are complementary only for operands free of further operators
  (`Conditions.EqualityPairComplementaryIff`).
- Reloading a cron list twice is a no-op unless the list gives one id two different jobs
  (`CronTable.ReloadTwiceIff`).
- An allowlist policy set through a channel override ignores the channel's list and denies everyone
  (`AccessRules.OverrideAllowlistDeniesAll`).
- Only Running agents should be proxied. Stopping a proxied agent from the control panel always
  leaves its proxy in the pool (`AgentState.PanelStopKeepsInvIff`). Of the tools, whichever writes
  fail, exactly the stop and the configure tool of a proxied agent do so, and exactly when their
  first write fails (`AgentState.ProxiedRunningIff`).

## Model

| member | source | states |
|---|---|---|
| `Conditions.EqualityMeans` | src/graph_workflow.rs:557-573 | `k == v` holds iff the key holds the literal as a string, a number that prints as it, true with "true", or false with "false"; for every key without `==` |
| `Conditions.InequalityMeans` | src/graph_workflow.rs:575-588 | `k != v` holds iff it holds none of these, so also for absent keys, null, lists and objects |
| `Conditions.OrderMeans` | src/graph_workflow.rs:590-614 | `k > v` and `k < v` hold iff the key holds a number strictly on that side of the literal, if no operator tried before splits the text elsewhere |
| `Conditions.OrderWithoutNumber` | src/graph_workflow.rs:590-621 | with a literal that is no number the whole text is read as a key |
| `Conditions.BareKeyMeans` | src/graph_workflow.rs:616-621 | a condition without operators tests that its key is present and neither null nor false |
| `Conditions.LiteralMeans` | src/graph_workflow.rs:560-563 | a literal is its text stripped of all blanks around it, then of all quotes around that, and of nothing else |
| `Conditions.QuotesDropped` | src/graph_workflow.rs:560-563 | quotes around a literal are dropped |
| `Conditions.EqualityPairComplementaryIff` | src/graph_workflow.rs:557-588 | exactly one of `k == v`, `k != v` holds in every state iff the key holds neither operator and the literal no `==` |
| `GraphWorkflow.Build` | src/graph_workflow.rs:116-179 | succeeds iff the graph is non-empty with distinct ids and known edge ends; otherwise names the first defect; the cap defaults to 100 |
| `GraphWorkflow.FindNode` | src/graph_workflow.rs:184-186 | finds a node with the id iff there is one |
| `GraphWorkflow.ResolveNextFollowsRule` | src/graph_workflow.rs:189-212 | the next node is the target of the first outgoing edge whose condition holds, else of the first unconditional one, else there is none; both directions |
| `GraphWorkflow.MergeOutput` | src/graph_workflow.rs:304-313 | merges the entries of an object output in order and ignores other outputs |
| `GraphWorkflow.ExecuteNode` | src/graph_workflow.rs:287-342 | marks before, runs, reduces or records the error, marks after |
| `GraphWorkflow.Execute` | src/graph_workflow.rs:266-355 | the loop yields a run in the sense of `IsRun`, with the outcome `Produces` prescribes: results, snapshots, iteration count, or the error |
| `GraphWorkflow.OutcomeUnique` | src/graph_workflow.rs:266-355 | workflow, oracle and initial state determine steps and outcome |
| `WorkflowPaths.TrailIsPath` | src/graph_workflow.rs:266-347 | executed nodes, and the one still due, form an edge path from the first node over declared nodes |
| `WorkflowPaths.ExecutionReport` | src/graph_workflow.rs:266-355 | a built workflow never reports a missing node; success means that no edge applies after the last step, returns the state and results of the steps and counts them; the cap error means exactly that many ran; snapshot i has node i, iteration i and the state before the after-marker |
| `WorkflowPaths.AcyclicAlwaysSucceeds` | src/graph_workflow.rs:266-355 | on an acyclic graph with a cap of at least the number of nodes, every execution succeeds and runs no node twice, for every oracle |
| `WorkflowPaths.ChainNeedsEveryIteration` | src/graph_workflow.rs:279-285 | a chain succeeds iff the cap reaches its length, so the bound above is tight |
| `WorkflowFolds.StepMeans` | src/graph_workflow.rs:279-347 | each step runs the first node, or the one the routing rule names, on the state before it with the before-marker if listed; the result is its output or its error; the output is reduced in key by key as configured, an error changes nothing; routing sees the after-marker if listed |
| `WorkflowFolds.EntriesFold` | src/graph_workflow.rs:215-255 | one output changes each key by folding that key's own values |
| `WorkflowFolds.RunFold` | src/graph_workflow.rs:302-323 | over a run each key but the markers is the fold of the successful contributions, in order |
| `WorkflowFolds.SumClosedForm` | src/graph_workflow.rs:242-249 | a Sum key is its initial number plus the total of the contributions |
| `WorkflowFolds.AppendClosedForm` | src/graph_workflow.rs:226-241 | an Append key is its list followed by the contributions, lists spliced, except the first onto a non-list value |
| `WorkflowFolds.RunReducers` | src/graph_workflow.rs:215-323 | over a whole run a key configured as Sum ends as its initial number plus the total, as Append as the spliced list, and otherwise (Overwrite, Custom or not configured) as the last value; keys nobody writes are unchanged |
| `WorkflowFolds.OutputOrderIrrelevant` | src/graph_workflow.rs:307-310 | the order of one output's distinct keys does not matter |
| `Switch.SwitchReportsFirst` | src/action_executor.rs:290-329 | from the parameters themselves: a switch reports the first condition whose expression holds on the given state, with its branch, else the default branch; missing parts are empty and the default branch "default" |
| `Switch.SwitchAgreesWithRouting` | src/action_executor.rs:290-329 | a switch picks the node that routing picks for the same conditions and one unconditional default edge, wherever it stands |
| `Switch.EqualityPairRoutes` | src/graph_workflow.rs:195-212 | a node with a complementary edge pair always has a successor |
| `CronTable.CancelStops` | src/cron.rs:125-132 | cancelling marks one entry, ends the loop of that id and touches nothing else |
| `CronTable.ScheduleStarts` | src/cron.rs:95-122 | scheduling leaves exactly one live loop under the id, running the job, and every other id as it was |
| `Cron.CronScheduler.constructor` | src/cron.rs:68-74 | starts with an empty table and no loops |
| `Cron.CronScheduler.CancelJobState` | src/cron.rs:278-283 | marks the entry and cancels its token |
| `Cron.CronScheduler.Schedule` | src/cron.rs:95-122 | cancels an entry with the same id, spawns one loop with a fresh token and stores it |
| `Cron.CronScheduler.Cancel` | src/cron.rs:125-132 | cancels a known job and ignores an unknown one |
| `Cron.CronScheduler.Reconcile` | src/cron.rs:139-167 | the two loops, in whatever order ids are met, equal dropping a set and updating a list |
| `Cron.CronScheduler.ActiveJobIds` | src/cron.rs:170-176 | exactly the ids of the loops still running |
| `Cron.CronScheduler.IsActive` | src/cron.rs:184-189 | true iff a loop still runs under the id |
| `CronTable.ReachableInv` | src/cron.rs:95-167 | after any calls, entries and loops agree on id, job, token and liveness |
| `CronTable.OneLiveLoopPerJob` | src/cron.rs:95-167 | no id has two live loops; a loop is live iff an Active entry holds its token and job |
| `CronTable.ActiveMeansLive` | src/cron.rs:184-189 | an id is Active iff a live loop runs under it |
| `CronTable.ReconcileTable` | src/cron.rs:139-167 | one Active entry per listed id with the last job listed for it, plus an unlisted heartbeat untouched, and nothing else |
| `CronTable.LastReloadWins` | src/cron.rs:139-167 | reload A then B leaves B's id-to-job table, up to the heartbeat |
| `CronTable.RunningJobKeepsToken` | src/cron.rs:152-166 | a job already running as listed keeps its entry and token |
| `CronTable.ReloadTwiceIff` | src/cron.rs:139-167 | a second identical reload changes, spawns and cancels nothing iff no id is listed with two different jobs |
| `RateLimiter.WebhookLimiter.constructor` | src/gateway_routes.rs:853-855 | starts a window now with a zero counter |
| `RateLimiter.WebhookLimiter.Admit` | src/gateway_routes.rs:863-880 | one request: more than 60 seconds after the window's start it restarts the window and passes; otherwise it is counted and passes iff fewer than 60 came before it |
| `RateLimiter.WindowBound` | src/gateway_routes.rs:863-880 | at most 60 requests pass per window, on every trace |
| `RateLimiter.IntervalBound` | src/gateway_routes.rs:852-880 | at most 120 pass in any closed 60-second interval of any monotone trace |
| `RateLimiter.IntervalStaysAtRateIff` | src/gateway_routes.rs:852-880 | the exact number passing in any closed 60-second interval: the room left in the window it begins in plus a full window after the one restart it can meet; it stays at 60 iff that sum does |
| `RateLimiter.IntervalBoundIsReached` | src/gateway_routes.rs:852-880 | some interval sees 120 pass, twice the described rate |
| `Heartbeat.CollectRemovals` | src/heartbeat_v2.rs:230-269 | the scan marks exactly the turns the filter removes |
| `Heartbeat.StripHeartbeatTurns` | src/heartbeat_v2.rs:225-277 | collect, sort, deduplicate and remove from the back equals the declarative filter of the original history |
| `Heartbeat.StrippedKeeps` | src/heartbeat_v2.rs:203-269 | exactly these turns go, the others stay in order: marked assistant turns that say HEARTBEAT_OK up to blanks, and marked user turns right before one or before no marked turn |
| `Heartbeat.RegularTurnsAndAlertsSurvive` | src/heartbeat_v2.rs:214-224 | all regular turns and all alerts survive in order |
| `Heartbeat.NoOkReplySurvives` | src/heartbeat_v2.rs:214-224 | no OK reply survives |
| `Heartbeat.StripTwiceIff` | src/heartbeat_v2.rs:225-277 | stripping is idempotent iff no prompt followed by a prompt is left without a heartbeat turn after it |
| `Heartbeat.StripTwiceWithoutAdjacentPrompts` | src/heartbeat_v2.rs:225-277 | idempotent on histories without two prompts in a row |
| `Heartbeat.StripTwiceCanDiffer` | src/heartbeat_v2.rs:261-265 | two trailing prompts take two passes |
| `Delivery.SplitMessage` | src/delivery.rs:258-282 | terminates with the split `IsSplit` describes; zero width means one chunk |
| `Delivery.ChunksFit` | src/delivery.rs:254-282 | chunks are at most the width long, and non-empty for non-empty text |
| `Delivery.LaterCutsKeepWords` | src/delivery.rs:272-279 | from the second chunk on a cut is at the last newline, else the last space, of its window, and fills the window iff it has neither |
| `Delivery.SplitReassembles` | src/delivery.rs:265-281 | the text is the chunks interleaved with whitespace-only gaps |
| `Delivery.SplitUnique` | src/delivery.rs:258-282 | text and width determine the chunks |
| `Streaming.StreamingDelivery.constructor` | src/delivery.rs:66-76 | starts without a placeholder |
| `Streaming.StreamingDelivery.TryEdit` | src/delivery.rs:80-125 | one edit; a benign refusal counts as done; otherwise one retry with the latest text |
| `Streaming.StreamingDelivery.OnPartial` | src/delivery.rs:130-165 | placeholder first, then edits unless the last was too recent; the latest text is kept |
| `Streaming.StreamingDelivery.OnComplete` | src/delivery.rs:167-191 | a final edit of the placeholder, else a new message |
| `StreamingState.PartialCalls` | src/delivery.rs:130-165 | one partial posts itself, marked as partial, if there is no placeholder; else it edits the placeholder with its text iff the last attempt is an interval ago, with one retry if that fails, each at its recorded time |
| `StreamingState.CompletionCalls` | src/delivery.rs:167-191 | a completion edits the placeholder with its text, with one retry, or else posts it, not marked as partial |
| `StreamingState.ScreenWhileStreaming` | src/delivery.rs:129-165 | after any partials, answered in any way, the screen holds the texts posted without an id, in order, and then the placeholder, the only message edits reach; it exists iff a partial was posted under a name |
| `StreamingState.PlaceholderShowsLatest` | src/delivery.rs:129-165 | the placeholder bears the channel's id, else the caller's, and shows exactly the last partial that came an interval after the attempt before it and was edited in, at once or by the retry |
| `StreamingState.OneMessageShowsCompletion` | src/delivery.rs:129-191 | any partials, answered in any way, then a completion that succeeds: the last message shows the completed text, the messages before it are those posted without an id, unchanged, and it is the only one iff there were none |
| `StreamingState.PartialEditsSpaced` | src/delivery.rs:97-161 | whatever the channel answers, the placeholder and its edits are at least the interval apart, each retry as far from its own edit; all attempts are apart iff none follows a retry too soon |
| `StreamingState.RetriesCanCrowd` | src/delivery.rs:97-161 | a run in which an edit falls together with the retry before it |
| `StreamingState.FreshDeliveryPostsChunks` | src/gateway.rs:2432-2445 | without a placeholder the chunks are posted as messages of their own, in order, up to the first failure, all of them iff none fails |
| `StreamingState.PlaceholderShowsLastChunk` | src/gateway.rs:2372-2377 | after a placeholder a delivery that succeeds, with edits applied, retried or refused as unmodified, leaves its last chunk in it and every other message as it was |
| `EventStream.ProcessEvent` | src/event_stream.rs:185-260 | what one event adds to partial text, final text, tool calls, images and token counts |
| `EventStream.Collect` | src/event_stream.rs:112-182 | text, tool calls, images, usage and limits as functions of the events before the first stream error; the callbacks likewise |
| `EventStream.CollectedMeans` | src/event_stream.rs:127-282 | from the events themselves: the response is the stream error's text, else the text of the last agent event that carries an LLM error or is complete and says something, else all that partial events say; tool calls and images are those of the agent's events, in order |
| `EventStream.LastUsageMeans` | src/event_stream.rs:211-217 | usage is that of the last agent event that reports it |
| `EventStream.LastCountMeans` | src/event_stream.rs:133-140 | the iteration count is that of the last event that reached the limit and gave one |
| `EventStream.CallbackAt` | src/event_stream.rs:149-155 | an event brings a callback iff it says something partial and no event up to it gave a final text; it is given all that was said |
| `EventStream.CallbacksGrow` | src/event_stream.rs:150-155 | callback texts are strictly growing prefixes of the partial text |
| `EventStream.CallbacksStopAtFinal` | src/event_stream.rs:150-155 | no callback once a final text exists |
| `EventStream.CallbacksComplete` | src/event_stream.rs:150-155 | until then the last callback carries all partial text |
| `EventStream.NothingAfterError` | src/event_stream.rs:157-167 | nothing after the first stream error is reported |
| `Pipeline.StreamShowsPrefixes` | src/gateway.rs:2095-2112 | while streaming, every message on screen, named or not, is a prefix of the collected partial text, whatever the channel does |
| `Pipeline.PlaceholderShowsResponseIff` | src/gateway.rs:2372-2377 | the chunks of a response delivered over a placeholder show it in full iff it fits the channel's width |
| `Pipeline.StreamEndsWithResponse` | src/gateway.rs:2095-2377 | collecting, streaming, splitting and delivering together: after the unnamed partials, all prefixes of the partial text, the placeholder shows the last chunk of the collected response, the whole of it iff it fits; without a placeholder the chunks stand as messages that reassemble to it |
| `Pipeline.EarlierTextsArePrefixes` | src/gateway.rs:2095-2112 | when the stream brings no final text and no error, everything shown while streaming is a prefix of the response and the last partial is the response |
| `Pipeline.PostedChunksReassemble` | src/gateway.rs:2441-2445 | messages posted without a placeholder reassemble to the response up to blanks, each within the width |
| `ConfigEncryption.SensitiveIff` | src/config_encryption.rs:138-141 | a field is sensitive iff its lower-cased name contains key, token, secret or password |
| `ConfigEncryption.DecryptInvertsEncrypt` | src/config_encryption.rs:85-133 | prefix and nonce framing are undone exactly |
| `ConfigEncryption.DecryptMeans` | src/config_encryption.rs:106-133 | a value decrypts iff behind the prefix it encodes a nonce and a ciphertext that open; ciphertexts that do not open fail, anything else is malformed |
| `ConfigEncryption.EveryLeafEncrypted` | src/config_encryption.rs:165-191 | at every path: a string without the prefix, in a field whose lower-cased name holds one of the four words, becomes the prefix and the encoded nonce and ciphertext if it can be sealed; every other value stays |
| `ConfigEncryption.EveryLeafDecrypted` | src/config_encryption.rs:194-218 | at every path: prefixed strings are decrypted, up to the first in document order that fails, whose error is reported; everything else stays |
| `ConfigEncryption.CountIsSecrets` | src/config_encryption.rs:287-311 | the count reported is the number of paths to such strings |
| `ConfigEncryption.HasEncryptedMeans` | src/config_encryption.rs:222-229 | encrypted values are found iff some path leads to a string with the prefix |
| `ConfigEncryption.WalkAndEncrypt` | src/config_encryption.rs:165-191 | the walk encrypts the sensitive plaintext leaves, leaving those whose encryption fails |
| `ConfigEncryption.WalkAndDecrypt` | src/config_encryption.rs:194-218 | the walk decrypts the prefixed leaves in order; at the first that fails it reports the error, with what precedes decrypted and the rest untouched |
| `ConfigEncryption.RestStaysUntouched` | src/config_encryption.rs:194-213 | once a member of an object or array fails to decrypt, that error is the outcome and the members after it are as they were |
| `ConfigEncryption.EncryptThenDecrypt` | src/config_encryption.rs:152-218 | for every document, decrypting after encrypting gives what decrypting gives: the same document or the same error, even if some encryptions fail |
| `ConfigEncryption.PlainRoundTrip` | src/config_encryption.rs:152-218 | documents without encrypted values come back exactly |
| `ConfigEncryption.EncryptionAccounts` | src/config_encryption.rs:287-311 | counted before = leaves changed + counted after; encrypted values appear iff there were some or a leaf changed; the document is the same iff none changed |
| `ConfigEncryption.NothingLeftIff` | src/config_encryption.rs:165-191 | no sensitive plaintext is left iff encryption succeeds on each of the document's sensitive plaintext leaves |
| `ConfigEncryption.EncryptOnceIsEnough` | src/config_encryption.rs:222-311 | in that case the reported count is the number of leaves changed, is zero afterwards, and encrypting again changes nothing |
| `AgentLifecycle.AgentGateway.constructor` | src/gateway_state.rs:454-490 | boot over any files, whichever reads and writes fail: memory is keyed by id, nothing is transient, nothing proxied, a system agent Running; with files keyed by id and no failures it is exactly `Boot` |
| `AgentLifecycle.AgentGateway.RegisterSystemAgent` | src/agent_registry.rs:84-112 | refuses a second system agent; forces the admin role; registers nothing if the write fails |
| `AgentLifecycle.AgentGateway.LoadFromDisk` | src/agent_registry.rs:203-230 | records are loaded under their config's id, whatever the files are called and in any order, up to the first unreadable file, which is an error; readable files keyed by id make memory old plus disk |
| `AgentLifecycle.AgentGateway.RepairStaleStates` | src/gateway_state.rs:474-490 | record by record: system becomes Running, Starting and Stopping become Stopped, all else stays; memory always changes, the file where it can be written, and no other file |
| `AgentLifecycle.AgentGateway.ForceState` | src/agent_registry.rs:139-149 | sets a state unchecked; memory changes even if the write fails |
| `AgentLifecycle.AgentGateway.CreateAgent` | src/agent_registry.rs:56-80 | refuses a taken id; inserts only after the write |
| `AgentLifecycle.AgentGateway.Enter` | src/agent_registry.rs:116-135 | changes state along the lifecycle's moves, listed in the contract, and no others; memory changes even if the write fails |
| `AgentLifecycle.AgentGateway.UpdateConfig` | src/agent_registry.rs:152-166 | replaces a config with the same id |
| `AgentLifecycle.AgentGateway.Delete` | src/agent_registry.rs:170-199 | removes Stopped and failed agents from memory, then from disk |
| `AgentLifecycle.AgentGateway.LaunchAgent` | src/executable_tools.rs:655-754 | build, spawn and readiness lead to Running with a proxy, or to Error |
| `AgentLifecycle.AgentGateway.StartTool` | src/executable_tools.rs:622-771 | the start tool is its program of steps, and when it reports success |
| `AgentLifecycle.AgentGateway.StopTool` | src/executable_tools.rs:535-593 | the stop tool is its program of steps, and when it reports success |
| `AgentLifecycle.AgentGateway.ConfigureTool` | src/executable_tools.rs:849-1077 | the configure tool is its program of steps, with a restart for Running agents, and when it reports success |
| `AgentLifecycle.AgentGateway.HealthFailure` | src/gateway.rs:619-630 | the health callback drops the proxy and tries to enter Error |
| `AgentState.ToolOutcome` | src/executable_tools.rs:535-1077 | from any state and whichever of its writes fail, every tool amounts to one update of the subject's record, file and proxy, with the states it starts from and the states it leaves in memory and on disk written out |
| `AgentState.ToolKeepsInv` | src/executable_tools.rs:535-1077 | each tool run to completion keeps: proxied agents are Running, keys are ids, disk equals memory, nothing is transient |
| `AgentState.BootEstablishesInv` | src/gateway_state.rs:454-490 | boot establishes the invariant; Starting and Stopping come back Stopped with their config, every other record as it was, and the system agent Running with the admin role |
| `AgentState.LifecycleInvariant` | src/agent_registry.rs:54-230 | the invariant holds after boot and any sequence of tools whose writes succeed |
| `AgentState.CrashRecovery` | src/gateway_state.rs:471-490 | a crash between any two steps of a tool, after any tools, each with its own failed writes: boot restores the invariant; every other agent comes back as its file had it, but Stopped if transient, and unchanged if memory and disk agreed; the subject has a config it had or was given, is lost only by delete and new only by create |
| `AgentState.PanelStopOutcome` | src/control_panel/agents.rs:329-374 | the panel's stop refuses all but Running agents, leaves memory and file where its two writes allow, and keeps the proxy |
| `AgentState.PanelStopKeepsInvIff` | src/control_panel/agents.rs:329-374 | stopping from the control panel leaves a proxied agent not Running iff the agent has a proxy, and keeps the whole invariant iff it refuses or there is no proxy and both writes succeed |
| `AgentState.ProxiedRunningIff` | src/executable_tools.rs:535-1077 | for every tool and every pattern of failed writes, proxied agents stay Running iff it is not the stop or configure tool of a proxied agent with its first write failing |
| `AgentState.FailedWriteLeavesProxy` | src/executable_tools.rs:549-888 | in that case the agent is left in Stopping, its proxy in the pool and its file as it was |
| `HealthMonitor.Monitor.RecordCheck` | src/health_monitor.rs:90-148 | one check updates one component and returns its event |
| `HealthChecks.StateIsStreak` | src/health_monitor.rs:107-135 | failures is the trailing streak; the status is Healthy, Degraded or Unhealthy with that count as it is zero, below or at max(1, threshold), and alerted means the last |
| `HealthChecks.RaisedExactly` | src/health_monitor.rs:114-146 | an alert exactly when the streak reaches the threshold, a recovery exactly when it then ends |
| `HealthChecks.EventsAlternate` | src/health_monitor.rs:80-89 | alerts and recoveries alternate, an alert first |
| `HealthChecks.ComponentsIndependent` | src/health_monitor.rs:90-148 | in every interleaving a component's state and events depend on its own checks only |
| `HealthChecks.MonitorRun` | src/health_monitor.rs:80-148 | the same over whole runs: Unhealthy iff an alert is outstanding |
| `AccessControl.LoadAuthConfig` | src/access_control.rs:436-458 | the last definition of a role wins; a user's roles accumulate |
| `AccessControl.LoadPolicies` | src/access_control.rs:217-243 | overrides take precedence over the channels' own settings |
| `AccessControl.BuildStaticScopes` | src/gateway_state.rs:834-859 | at startup a user's static scopes are the scopes of the bridge's defined roles for that user |
| `AccessControl.AccessControlBridge.constructor` | src/access_control.rs:208-258 | the bridge of a configuration |
| `AccessControl.AccessControlBridge.MarkPaired` | src/access_control.rs:296-302 | pairs a user and grants the paired role |
| `AccessControl.AccessControlBridge.Rebuild` | src/access_control.rs:313-358 | the new configuration's bridge with the paired users kept |
| `AccessRules.ReloadKeepsPairings` | src/access_control.rs:208-358 | after any pairings and reloads: the bridge of the last configuration with everyone ever paired |
| `AccessRules.AccessAfterReloads` | src/access_control.rs:208-358 | across any pairings and reloads the exact answer to a sender: the last configuration's override, else its channel setting, else pairing, applied to who is listed by raw or canonical id, or was ever paired |
| `AccessRules.RolesAfterReloads` | src/access_control.rs:208-358 | a user has exactly the roles the last configuration maps it to, and the paired role if ever paired; a role is its last definition |
| `AccessRules.OverrideAllowlistDeniesAll` | src/access_control.rs:460-481 | an allowlist policy set by an auth override has an empty list and turns every sender away |
| `AccessRules.StaticScopesMatchRoles` | src/gateway_state.rs:841-855 | the scope map and the role map agree for every user |
| `AccessRules.StaticScopesMean` | src/gateway_state.rs:841-855 | a user has a static scope iff a role mapped to it has it in its last definition |
| `Calendar.DaysToDate` | build.rs:44-62 | the loops yield the one date of the calendar whose closed-form day number is the input |
| `Calendar.YearStep` | build.rs:64-66 | the closed form with y/4 - y/100 + y/400 grows by the length of each year |
| `Calendar.DayNumberOrders` | build.rs:44-62 | day numbers order dates as the calendar does, so the conversion is injective and order-preserving |
| `Calendar.TomorrowIsNext` | build.rs:44-62 | the calendar's next day has the next day number, and 1970-01-01 is day 0, so day numbers count days and every date has one |

## Left out

- HTTP, Telegram, Slack, MCP, ACP and AWP clients, and route handlers other than the limiter: network plumbing.
- Running agents, HTTP, file and wait actions inside a workflow node: replaced by the oracle.
- AES-GCM, base64 and JWT checking: foreign; only the inverse laws of the cipher and the encoding are assumed.
- `process_message` as a whole: the rewriting of empty, suppressed and cron responses between collecting and delivering is not modelled.
- Interleaving of lifecycle operations with each other or with the health callback, and the message router's bindings: each operation runs to completion.
- Auto-start, shutdown and the control panel's create, start, configure and delete handlers: the same registry steps again.
- Timestamps, ports and process ids in agent records, workspace archiving and RBAC registration.
- StreamingState.OneMessageShowsCompletion: assumes that the channel refuses an edit as unmodified only when the text is already shown; a message it posts without an id counts as the caller's in-flight message if the caller names one (src/delivery.rs:31-32).
- Batch delivery and the choice of strategy: one send per completion, as a fresh streaming delivery does.
- Firing of cron loops, heartbeat schedules, tool access checks, error texts shown to users, log retention, serde defaults, the UI and the CLI: easy or string-only.
- Wrap-around of 32- and 64-bit counters: `nat` throughout.
