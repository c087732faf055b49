# Verified models of the dispatch harness

This project models the parts of the harness whose correctness depends on more than one function:
the managed delivery gateway and its WebSocket layer, the route compiler and verifier over a
validated stage graph, the completion-marker protocol, the continuation loop of the two
supervisors, and two algorithms of the figure verifier. Everything is stated for all inputs, all
runs or all reachable states, and proved by Dafny:

    dafny verify dfyconfig.toml

## How it is laid out

**Managed gateway.** `GatewayModel` is the specification: one function per handler that runs under
the gateway's lock, on a state that holds the ledger, the per-thread turn state, the queues and the
in-flight tables. Every handler appends its visible effects (ledger commits, upstream writes,
answers read, replies to producers) to a log. A handler can be cut short by a failing socket after
any number of writes, an epoch can end at any time, and a crash keeps any prefix of the effects of
the running call, after which a new process knows only what the log committed to the ledger.
`ManagedGateway` is the object itself, with the fields of the original and one method per
handler; each method is proved to do exactly what the specification says. `GatewayInvariant`,
`GatewaySteps`, `GatewayHandlers` and `GatewayRuns` carry one invariant through every handler
and every run; `GatewayTheorems`, `GatewayQueues`, `GatewayOrder` and `GatewayRedelivery` draw the
conclusions. `GatewayOutcomes` says, handler by handler, what is logged and what changes.

A run is `Lawful` when the TUI does not reuse a request id that is still in use, upstream answers
only requests that were written to it and not answered yet, and nobody asks again for a delivery
that is `prepared` and still pending. The last hypothesis is not idle: `RedeliveryExactly` shows
that asking at a given moment keeps the delivery safe if and only if it holds or another thread is
current.

**WebSocket.** `WebSocketFrames` specifies the frame format and message reassembly (RFC 6455,
sections 5.2 to 5.5) on byte sequences; `WebSocket` is the buffered object over a connection that
hands out its bytes in pieces of any size; `WebSocketRules` gives frames and messages in numbers.

**Stage graphs.** `Graph` and `GraphSearch` hold reachability, the depth-first searches and the
quotient of one graph by another. `Scopes` treats write scopes and bucket anchors on their actual
text, `Schedule` and `ScheduleLimits` say what the validator's overlap check is worth. `Expansion`,
`ExpansionForm`, `ExpansionMeaning` and `ExpansionTheorems` treat the expansion of parallel groups,
`WorkflowContract` the sealed contract, `Evidence` the sealed dispatch evidence, and
`RouteCompiler`, `RouteVerifier`, `CompileThenVerify` and `CompileTheorem` the agreement of
compiler and verifier. `LegNames` says which names the expansion gives out and when they clash, `ExpansionSteps` what becomes of
a single node even then, and `Sealing` when an expanded recipe can be sealed. What these parts come to
in the fields of recipe, request and route is in `ScopeRules`, `WorkflowRules`, `ExpansionOutcome`,
`EvidenceOutcome`, `CompileOutcome` and `VerifySound`.

**Completion markers.** `MarkerModel` describes each completion call as a list of atomic writes and
an answer. A crash keeps a prefix of the writes. `MarkerInvariant`, `MarkerCalls` and `MarkerRuns`
prove what holds after any run of calls, crashes and foreign registry edits; `MarkerRetry` says what
the retry of a crashed call answers; `CompletionStore` is
the same protocol as an object that changes files and rows step by step, proved to perform exactly
those writes; `MarkerPaths` relates the model's paths to file names, and `MarkerRules` says which
rows a completion may close and what it leaves behind.

**Supervisors.** `Supervisor` holds receipt checking and the continuation loop the two supervisors
share, `SupervisorRules` its exit codes and receipts; `AppServer` holds the request and event
buffering of the app-server client.

**Figure verifier.** `PngLayout` has the Adam7 geometry and the filter scan, `PngStream` the chunk
walk and the whole verdict on a PNG stream, `PngRules` the same in numbers, `CodeSpans` and
`CodeSpanRules` the blanking of Markdown code spans.

## Where the code and its description differ, and where a promise needs a condition

- The docstring of the expansion (`utilities/capability-route.py:316-320`) says that *non-review
  consumers* receive every leg's output. The code tests the kind of the anchor, not of the
  consumer (`utilities/capability-route.py:360`). The model follows the code:
  `ConsumersReceiveEveryOutput` and `ReviewAnchorsFeedNobody`.
- Nothing in the validator keeps the name of a new leg free: `LegNamesMayClash` is a recipe that
  passes its rules on graph, scopes, continuations and groups and whose expansion has a duplicate
  id. `LegNamesClashExactly` gives the condition, and `SoundExactly` shows that for validated
  recipes it is the only hypothesis of the other theorems about the expansion (`Sound`).
- The validator does not look at unknown node keys, the compiler copies them, and the verifier
  refuses some of them (`utilities/capability-route.py:753-767`): a retired `dispatch_fallback`, an
  unknown `execution_surface`, a `registered_worker` that is no boolean, an unknown
  `harness_affinity` on a node of depth 1, or group keys that do not form a group. It also refuses
  legs that may write to the same place. `StagedRouteVerifies` says exactly when a compiled staged
  route is accepted, for every valid recipe; `StagedRecipeVerifies` turns that into a condition on
  the recipe itself when leg names are fresh. One scope per anchor without inner wildcards keeps the
  legs apart (`OneScopeSuffices`); two scopes the validator accepts together may collide once
  suffixed (`TwoScopesMayCollide`).
- Such a clash may also make a validated recipe impossible to seal (`SealingMayRaise`).
  `SealsExactly` gives the condition: whoever gives out one name agrees on whether it has dependents.
- Repeating a finished completion gives the same marker if and only if the attempt is no owner chain
  and the marker was made for the evidence file named now (`RetryGivesSameMarker`). An owner chain's
  retry is refused because the link that the first call wrote has no room for the chain
  (`utilities/capability-route.py:1248-1260`, `utilities/capability-route.py:1306-1317`); the path
  is compared as well as the digest, and the canonical marker is reused across paths.
- The retry of a crashed completion need not give the marker of the crashed call: a crash between the
  new history entry and the canonical marker (`utilities/capability-route.py:1179-1186`) leaves the
  entry behind, and the retry takes the next number (`RetryMayRenumber`). And an owner chain that
  crashes between its link and its row can never complete (`OwnerChainIsStuck`). `RetryAfterCrash`
  and `RetryLater` say exactly when a retry succeeds and when it gives the same marker, for a crash
  after any number of writes.
- A second `deliver` for an id that is prepared and still queued makes a second copy
  (`utilities/codex-managed-gateway.py:1392-1442`), unless another thread is current; see
  `RedeliveryExactly`.
- A `turn/completed` that arrives between the answer to a start and `turn/started` leaves queued
  work behind; `CompletedStrandsExactly` says when, and `NoStrandedQueue` assumes it away.
- Disjoint scopes alone do not make schedules equivalent: a node that reads what an unordered node
  writes still races (`RacyReadsBreakOrder`), and the validator does not look at reads.
  `OrderIrrelevantExactly` is the exact statement, for any set of reads: no order of the nodes
  matters if and only if the scope check passes and no node reads what an unordered one may write.
- The supervisor's bound needs closed children to stay closed. `NeverStopsExactly` says when the
  loop never stops: if and only if from some turn on it only closes, every time, delivered children
  that were found open again. `ReopeningNeverStops` is such a run.
- Two kinds of completion files may share a name (`DottedNamesCollide`). `NamesDistinctExactly` says
  when: if and only if one node id continues another with a dot and characters that may stand in an
  attempt's file name, whatever these are outside ASCII.

## Model

| member | source | states |
|---|---|---|
| `GatewayTheorems.DeliveredAtMostOnce` | utilities/codex-managed-gateway.py:955-1017 | Over every lawful run with disconnects, socket failures and crashes, the upstream writes of one delivery are none, one, or a steer, its explicit refusal and then one start. |
| `GatewayTheorems.SentIsNeverResent` | utilities/codex-managed-gateway.py:1373-1382 | A delivery whose row is `sent` when an epoch ends is never written again and stays `sent` through any continuation of the run. |
| `GatewayTheorems.StatusIsHonest` | utilities/codex-managed-gateway.py:612-655 | Whenever anyone is told `retryable`, no upstream write of that delivery has happened in any epoch; whenever anyone is told `accepted`, the last write of the delivery was answered with success. |
| `GatewayTheorems.LedgerIsMonotone` | utilities/codex-managed-gateway.py:360-402 | Rows are never lost or re-identified over a run, and accepted and rejected rows never change again. |
| `GatewayTheorems.WorkHasOneOwner` | utilities/codex-managed-gateway.py:1422-1442 | In every reachable state each unresolved completion and each unanswered manual turn/start sits in exactly one queue, idle list, flight or TUI request. |
| `GatewayTheorems.PendingStartIsTheOnlyOne` | utilities/codex-managed-gateway.py:1480-1484 | In every reachable state a thread's unanswered turn/start requests are exactly the one its pending-start id names, or none. |
| `GatewayTheorems.StartsAreSerialized` | utilities/codex-managed-gateway.py:1057-1067 | Every turn/start ever written was written while its thread had no active turn and no other unanswered start. |
| `GatewayRuns.RunInv` | utilities/codex-managed-gateway.py:657-842 | Every lawful run, crashes included, keeps the gateway invariant that ties ledger, queues, flights and the history of effects together. |
| `GatewayRuns.CrashInv` | utilities/codex-managed-gateway.py:323-358 | Whatever prefix of effects survives a crash, a process restarted on the ledger alone satisfies the invariant. |
| `GatewayRuns.DisconnectInv` | utilities/codex-managed-gateway.py:612-655 | Hanging up in the middle of any handler, with items still in hand, gives honest replies and the invariant. |
| `GatewayRuns.DeliverInv` | utilities/codex-managed-gateway.py:1363-1442 | A `deliver` call for an id that is not prepared and pending keeps the invariant on every branch. |
| `GatewayQueues.NoStrandedQueue` | utilities/codex-managed-gateway.py:704-714 | If turns are only completed after both their answer and their announcement, a non-empty queue always means an unanswered start or an active turn not yet ready for steering. |
| `GatewayQueues.CompletedStrandsExactly` | utilities/codex-managed-gateway.py:826-841 | A completed turn strands its thread's queue if and only if it ended before it was steerable, its start was answered, something was queued and no idle completion takes over. |
| `GatewayOrder.AnnouncedSecond` | utilities/codex-managed-gateway.py:812-825 | When turn/started comes after the answer, everything queued is written as steers in list order and the queue is empty. |
| `GatewayOrder.StartAnswerSecond` | utilities/codex-managed-gateway.py:975-989 | When the answer to a completion's start comes after turn/started, the queue is steered in list order. |
| `GatewayOrder.ManualAnswerSecond` | utilities/codex-managed-gateway.py:945-953 | When the answer to a manual start comes after turn/started, the queue is steered in list order. |
| `GatewayOrder.RefusedManualStart` | utilities/codex-managed-gateway.py:938-949 | A refused or malformed answer to a manual start writes nothing upstream and fails every queued item: completions are rejected, manual requests answered. |
| `GatewayOrder.RefusedCompletionStart` | utilities/codex-managed-gateway.py:959-974 | A refused or malformed answer to a completion's start does the same, after rejecting that completion. |
| `GatewayRedelivery.RedeliveryExactly` | utilities/codex-managed-gateway.py:1392-1442 | In any state of an orderly run, every continuation of asking for a delivery writes it at most once if and only if its row is not prepared while it is pending, or another thread is current. |
| `ManagedGatewayObject.DeliveryLedger.Transition` | utilities/codex-managed-gateway.py:360-402 | The ledger commits exactly the allowed transitions, changes one row only, never its identity, and leaves closed rows closed. |
| `ManagedGatewayObject.ManagedGateway.SendCompletion` | utilities/codex-managed-gateway.py:1457-1508 | Files the flight, checks the context size, commits `sent` before the write; equals the specification step that the theorems are about, also when it raises half-way. |
| `ManagedGatewayObject.ManagedGateway.SendManualSteer` | utilities/codex-managed-gateway.py:729-771 | Refines the specification step: flight filed before the write. |
| `ManagedGatewayObject.ManagedGateway.AcceptDelivery` | utilities/codex-managed-gateway.py:1510-1543 | Refines the specification step: commit, then release the producer; a refused commit is reported as ambiguous. |
| `ManagedGatewayObject.ManagedGateway.RejectDelivery` | utilities/codex-managed-gateway.py:1545-1571 | Refines the specification step: the producer is told `rejected` whether or not the commit is taken. |
| `ManagedGatewayObject.ManagedGateway.FailQueued` | utilities/codex-managed-gateway.py:1069-1078 | The loop over the taken queue refines the recursive specification, item by item and also when a TUI write raises. |
| `ManagedGatewayObject.ManagedGateway.DrainQueued` | utilities/codex-managed-gateway.py:1043-1055 | The loop over the taken queue refines the recursive specification, and fails the queue when no turn is active. |
| `ManagedGatewayObject.ManagedGateway.StartNextIdle` | utilities/codex-managed-gateway.py:1057-1067 | Refines the specification step: the oldest idle completion is started only if nothing runs or is being started. |
| `ManagedGatewayObject.ManagedGateway.ManualStart` | utilities/codex-managed-gateway.py:690-727 | Refines the specification step: steer, queue or start. |
| `ManagedGatewayObject.ManagedGateway.Forward` | utilities/codex-managed-gateway.py:680-688 | Refines the specification step: the request is remembered before it is forwarded. |
| `ManagedGatewayObject.ManagedGateway.StartAnswered` | utilities/codex-managed-gateway.py:959-989 | Refines the specification step for both refusals and both orders of answer and announcement. |
| `ManagedGatewayObject.ManagedGateway.SteerAnswered` | utilities/codex-managed-gateway.py:990-1017 | Refines the specification step; `RefusedSteer` and `SteerTaken` say what the step comes to. |
| `ManagedGatewayObject.ManagedGateway.InternalAnswered` | utilities/codex-managed-gateway.py:955-1037 | Refines the specification step for the three kinds of flight. |
| `ManagedGatewayObject.ManagedGateway.TuiAnswered` | utilities/codex-managed-gateway.py:920-953 | Refines the specification step for opened threads, manual starts and everything else. |
| `ManagedGatewayObject.ManagedGateway.TurnStarted` | utilities/codex-managed-gateway.py:812-825 | Refines the specification step: the queue is drained only when no start is unanswered. |
| `ManagedGatewayObject.ManagedGateway.TurnCompleted` | utilities/codex-managed-gateway.py:826-841 | Refines the specification step: a completion of another turn is ignored. |
| `ManagedGatewayObject.ManagedGateway.HandleUpstream` | utilities/codex-managed-gateway.py:799-842 | Refines the specification's dispatch of answers and notifications, then tells the TUI. |
| `ManagedGatewayObject.ManagedGateway.Deliver` | utilities/codex-managed-gateway.py:1363-1442 | Refines the specification's case distinction over the row, the connection and the thread. |
| `ManagedGatewayObject.ManagedGateway.Disconnect` | utilities/codex-managed-gateway.py:612-655 | The loop over the waiting producers refines the specification: each is told `sent-ambiguous` or `retryable` by its row, and the epoch is forgotten. |
| `ManagedGatewayObject.ManagedGateway.Perform` | utilities/codex-managed-gateway.py:597-610 | One call under the lock and what follows when its handler raises, for every number of writes the socket takes. |
| `ManagedGatewayObject.ManagedGateway.Serve` | utilities/codex-managed-gateway.py:553-595 | A whole run of the object is a run of the specification, so the theorems above hold of the object. |
| `GatewayOutcomes.RefusedSteer` | utilities/codex-managed-gateway.py:990-1008 | After an error answer to a steer the log grows by the answer; with no active turn, no unanswered start and a fitting context it grows further by exactly the commit as sent and the write of a turn/start for the longest-waiting idle completion, the refused one if none waited. Otherwise nothing is written and the refused completion stands last among the idle ones. |
| `GatewayOutcomes.TurnEnded` | utilities/codex-managed-gateway.py:826-841 | The end of the active turn makes the thread idle, starts exactly its longest-waiting completion by commit and turn/start, and tells the TUI. |
| `GatewayOutcomes.OtherTurnEnded` | utilities/codex-managed-gateway.py:826-841 | The end of any other turn writes nothing and changes no thread, flight or row. |
| `GatewayOutcomes.TurnAnnounced` | utilities/codex-managed-gateway.py:812-825 | An announced turn becomes the active one of its thread, which becomes current; it is ready for steering if no start is unanswered. |
| `GatewayOutcomes.OtherNotice` | utilities/codex-managed-gateway.py:799-842 | A notice without thread or turn, and any other message that answers nothing, is passed on and changes nothing else. |
| `GatewayOutcomes.DeliverTurnedDown` | utilities/codex-managed-gateway.py:1363-1406 | What a request is told without being taken in: the verdict of a closed row, `sent-ambiguous` for a sent row nobody waits for, `retryable` without a connection, `rejected` for another thread; nothing else is logged. |
| `GatewayOutcomes.DeliverTakenIn` | utilities/codex-managed-gateway.py:1407-1442 | A new or prepared delivery of the current thread is committed as prepared, then steered into a turn that is ready, queued behind one that is not or behind an unanswered start, and started otherwise, with exactly these effects. |
| `GatewayOutcomes.RaisedHandlers` | utilities/codex-managed-gateway.py:597-610 | A delivery whose handler raises is told `rejected` and the connection stays up; any other handler that raises ends the epoch and forgets everything but the ledger. |
| `GatewayOutcomes.ManualTakenIn` | utilities/codex-managed-gateway.py:690-727 | A turn/start of the TUI is steered, queued or started by the same rule, under the TUI's own request id. |
| `GatewayOutcomes.Forwarded` | utilities/codex-managed-gateway.py:657-688 | Any other request is remembered under its id and passed on unchanged. |
| `GatewayOutcomes.SteerTaken` | utilities/codex-managed-gateway.py:1009-1017 | A steer upstream took is committed and told as accepted, unless the answer names another turn than the active one; then it is rejected. |
| `GatewayOutcomes.StartTaken` | utilities/codex-managed-gateway.py:975-989 | A start upstream took makes its turn the active one, leaves no start unanswered, and commits and tells the completion as accepted; before the announcement nothing more happens. |
| `GatewayOutcomes.StartRefused` | utilities/codex-managed-gateway.py:959-974 | A start upstream refused, or answered without a turn, is committed and told as rejected with its reason before anything queued behind it is failed. |
| `GatewayOutcomes.ManualSteerAnswered` | utilities/codex-managed-gateway.py:1018-1037 | The answer to a manual steer goes to the TUI under the id the TUI used, and ends that flight only. |
| `GatewayOutcomes.ThreadOpened` | utilities/codex-managed-gateway.py:927-934 | The answer to an opened thread makes it the current one if it names one; every answer is passed on. |
| `GatewayOutcomes.OtherAnswered` | utilities/codex-managed-gateway.py:935-936 | An answer to any other request, or to none that is known, is passed on and changes no thread. |
| `GatewayOutcomes.ManualStartTaken` | utilities/codex-managed-gateway.py:937-953 | A manual start upstream took makes its turn active and leaves no start unanswered; the queue waits for the announcement. |
| `GatewayOutcomes.HungUp` | utilities/codex-managed-gateway.py:612-655 | At the end of an epoch every pending delivery is told `sent-ambiguous` if its row says sent and `retryable` otherwise; threads, flights and remembered requests are gone, the ledger stays. |
| `GatewayOutcomes.WaitRunsOut` | utilities/codex-managed-gateway.py:1443-1449 | A producer whose wait runs out is told `sent-ambiguous`, and nothing else changes. |
| `GatewayOutcomes.LedgerTable` | utilities/codex-managed-gateway.py:360-402 | State by state, which transitions the ledger commits, and the row it then holds. |
| `WebSocketFrames.FrameRoundTrip` | utilities/codex-managed-gateway.py:232-273 | Reading a written frame gives back its final bit, opcode and payload and leaves exactly the bytes behind it, for all three length encodings and every mask. |
| `WebSocketFrames.OversizedRefused` | utilities/codex-managed-gateway.py:240-244 | A frame above the limit is refused from its length field, whatever follows. |
| `WebSocketFrames.PrefixIsUnfinished` | utilities/codex-managed-gateway.py:219-230 | No proper prefix of a written frame reads as a frame. |
| `WebSocketFrames.Reassembly` | utilities/codex-managed-gateway.py:275-304 | However a text is split into frames, with pings and pongs in between, reading gives exactly the text and one pong per ping, in order, with the same data. |
| `WebSocketFrames.OnlyTextMessages` | utilities/codex-managed-gateway.py:275-304 | On any stream at all, a message that is complete is a text message. |
| `WebSocketFrames.WireIsReadBack` | utilities/codex-managed-gateway.py:232-273 | A sequence of written frames reads back as the same sequence. |
| `WebSocketObject.WebSocket.RecvExact` | utilities/codex-managed-gateway.py:219-230 | The buffered loop takes exactly the first bytes of what is pending, however the connection cuts them up. |
| `WebSocketObject.WebSocket.ReadFrame` | utilities/codex-managed-gateway.py:232-250 | The result depends on the pending bytes only, not on buffer or chunks, and is what the format says. |
| `WebSocketObject.WebSocket.WriteFrame` | utilities/codex-managed-gateway.py:252-273 | Writes exactly the frame's encoding under a fresh mask, or nothing when closed. |
| `WebSocketObject.WebSocket.ReadMessage` | utilities/codex-managed-gateway.py:275-304 | The loop gives the specified outcome and rest, and writes exactly the specified pongs, each masked afresh. |
| `WebSocketObject.WebSocket.WriteText` | utilities/codex-managed-gateway.py:306-310 | Writes one text frame, or refuses an oversized one before anything is written. |
| `WebSocketRules.MaskedBits` | utilities/codex-managed-gateway.py:247-250 | Bit by bit: a masked byte differs from the payload's exactly where the key byte has a one, and the four key bytes take turns. |
| `WebSocketRules.FrameBytes` | utilities/codex-managed-gateway.py:252-273 | A written frame byte by byte: final flag and opcode, mask flag and length in one of three forms with the most significant byte first, key, payload. |
| `WebSocketRules.AnyFrameRead` | utilities/codex-managed-gateway.py:232-250 | Any length form and any reserved bits: a frame whose length field is at most 16777216 is read with its payload unmasked, a longer one is refused. |
| `WebSocketRules.NextFrame` | utilities/codex-managed-gateway.py:275-305 | What the next frame does to a message, opcode by opcode: close ends it, ping owes a pong or ends it on a closed socket, pong is skipped, text starts afresh, a continuation without a start and any other opcode are refused. |
| `WebSocketRules.StreamEnds` | utilities/codex-managed-gateway.py:219-250 | A stream that ends inside a frame closes the message; an oversized frame refuses it. |
| `NetworkBytes.PackRoundTrip` | utilities/codex-managed-gateway.py:237-241 | Numbers in network byte order survive packing and unpacking. |
| `GraphSearch.ClosureOf` | tools/harness_manifest.py:88-105 | Gives exactly the set the start nodes reach, or an error if and only if they reach an unknown node or a cycle, with that node as witness. |
| `GraphSearch.DependencyClosure.Visit` | tools/harness_manifest.py:92-102 | The recursive visitor keeps its result closed under dependencies, adds only what the item reaches, and on an error names a reached unknown or cyclic node. |
| `GraphSearch.IsAcyclic` | tools/capability_topology.py:943-950 | The cycle check passes if and only if the graph is acyclic. |
| `GraphSearch.CycleCheck.Visit` | tools/capability_topology.py:944-949 | The visitor leaves the nodes being visited as they were and the finished nodes closed and cycle-free, or it has reached a cycle. |
| `GraphSearch.AncestorMemo.Deps` | tools/capability_topology.py:951-956 | The memoized recursion ends and gives exactly the strict transitive closure, keeping earlier entries. |
| `Graph.BelowShrinks` | tools/capability_topology.py:951-956 | In an acyclic graph a dependency has strictly fewer nodes below it; the reason the recursion ends. |
| `Graph.CollapseReaches` | utilities/capability-route.py:313-370 | A graph that collapses onto another edge by edge has the same reachability, both ways. |
| `Scopes.OverlapMeansShared` | tools/capability_topology.py:52-60 | Two scope roots overlap if and only if some path lies in both. |
| `Scopes.LegsDisjoint` | tools/capability_topology.py:68-81 | A leg's scope overlaps neither its base nor the leg of another suffix, for every scope without inner wildcards. |
| `Scopes.LegSafe` | tools/capability_topology.py:68-81 | A leg of a safe relative scope is a safe relative scope. |
| `Scopes.LegStaysInAnchor` | tools/capability_topology.py:104-119 | An anchor with fewer segments than the scope matches the leg exactly when it matches the base. |
| `Scopes.LegLeavesExactAnchor` | tools/capability_topology.py:104-119 | An anchor with as many segments that ends in a literal matches no leg of a scope it matches. |
| `Scopes.SiblingScopesMayCollide` | tools/capability_topology.py:68-81 | Two disjoint scopes of which a leg of one overlaps the other. |
| `ScopeRules.SegmentsSplit` | tools/capability_topology.py:52-56 | A path is split at every slash. |
| `ScopeRules.SafeExactly` | tools/capability_topology.py:52-56 | A scope is safe if and only if it is not empty, does not start with a slash, and nowhere holds two dots alone between slashes. |
| `ScopeRules.TreeLeg` | tools/capability_topology.py:68-72 | The leg of a tree without other wildcards is the tree with the suffix behind its stem. |
| `ScopeRules.FileLeg` | tools/capability_topology.py:73-81 | The leg of a file has the suffix in front of its last extension. |
| `ScopeRules.NameLeg` | tools/capability_topology.py:73-81 | Without an extension the suffix comes last. |
| `ScopeRules.MatchesExactly` | tools/capability_topology.py:104-119 | An anchor matches exactly the roots that start with its segments, a placeholder standing for any segment and `<component>` for none that starts with an underscore; the rest is what is left. |
| `ScopeRules.PlaceholderIs` | tools/capability_topology.py:104-119 | A word in angle brackets is a placeholder if and only if it is one or more small letters. |
| `Schedule.CheckSchedule` | tools/capability_topology.py:943-961 | The validator's loops pass exactly on acyclic graphs in which nodes with overlapping scopes are ordered. |
| `Schedule.ScheduleIndependence` | tools/capability_topology.py:957-961 | Any two orders that respect the dependencies of an accepted recipe leave the same artifact tree, for nodes that write inside their scopes and read race-free. |
| `ScheduleLimits.AcceptedIsDeterministic` | tools/capability_topology.py:957-961 | For writes that do not look at other nodes' scopes, the overlap check holds if and only if no order can change the outcome of any behaviour. |
| `ScheduleLimits.OrderIrrelevantExactly` | tools/capability_topology.py:943-961 | For any set of reads, every behaviour within scopes and reads leaves the same tree in all dependency-respecting orders if and only if the overlap check passes and no node reads what an unordered node may write. |
| `ScheduleLimits.OverlapBreaksOrder` | tools/capability_topology.py:957-961 | Any unordered overlapping pair has a behaviour whose outcome depends on the order. |
| `ScheduleLimits.RacyReadsBreakOrder` | tools/capability_topology.py:957-961 | The concrete input: an accepted recipe of two nodes, one reading what the other writes, with two outcomes. |
| `Expansion.ExpandParallelGroups` | utilities/capability-route.py:313-370 | The loop over groups, legs and consumers computes the recursive expansion; `GroupHasWidth` says how many legs it makes of which specifications. |
| `ExpansionOutcome.GroupHasWidth` | utilities/capability-route.py:326-356 | With fresh leg names and no preset groups, every group whose first tier is reached has exactly its width's number of nodes, the legs it lists first in their order, field by field; a group below its first tier has none. |
| `ExpansionOutcome.OthersUnchanged` | utilities/capability-route.py:357-369 | A node that anchors no group reached stays as it is but for the dependencies and inputs added behind its own. |
| `ExpansionOutcome.ExpandedSize` | utilities/capability-route.py:326-369 | The expansion has as many nodes as the recipe and, for each group reached, its width less one, whether or not names clash. |
| `ExpansionForm.ExpandIsClosedForm` | utilities/capability-route.py:326-369 | Applying group after group equals one simultaneous replacement of every node by its row of legs. |
| `ExpansionTheorems.ExpansionPreservesReachability` | utilities/capability-route.py:313-370 | Collapsing legs onto their anchors gives back the recipe's reachability, both ways. |
| `ExpansionTheorems.ExpansionPreservesAcyclicity` | utilities/capability-route.py:313-370 | The expansion is closed, and acyclic if and only if the recipe is. |
| `ExpansionTheorems.ConsumersDependOnEveryLeg` | utilities/capability-route.py:355-359 | Every leg of a consumer depends on every leg of the anchor, and only consumers do. |
| `ExpansionTheorems.ConsumersReceiveEveryOutput` | utilities/capability-route.py:360-363 | Every leg of a consumer of an anchor that does not review receives every output of every further leg. |
| `ExpansionTheorems.ReviewAnchorsFeedNobody` | utilities/capability-route.py:360-363 | Legs of a reviewing anchor hand nothing on, whatever kind the consumer has. |
| `ExpansionTheorems.GroupOrderIrrelevant` | utilities/capability-route.py:326-369 | Any order of the groups gives the same nodes in the same places, with dependencies and inputs equal up to their order. |
| `LegNames.ExpandIds` | utilities/capability-route.py:364-369 | The expansion carries exactly the names of the recipe and of all added legs, each as often, whether or not they clash. |
| `LegNames.LegNamesClashExactly` | utilities/capability-route.py:336-336 | Ids of the expansion are unique if and only if the recipe's ids and the names of all added legs are pairwise different. |
| `LegNames.SoundExactly` | utilities/capability-route.py:313-370 | For recipes the validator accepts, the hypothesis of the expansion theorems holds if and only if the expansion's ids are unique. |
| `LegNames.LegNamesMayClash` | utilities/capability-route.py:336-336 | The concrete input: a review anchor and a node with the name of its leg, valid in graph, scopes, continuations and group, whose expansion has a duplicate id. |
| `WorkflowContract.ValidateContinuations` | tools/capability_topology.py:558-656 | The loops over bindings, nodes and terminal gates pass exactly if every declared gate is bound once, every node stands as sink or names how it continues, and a node waits at a human gate if and only if a direct dependent has an entry gate, which it names. |
| `WorkflowRules.ContinuationsExactly` | tools/capability_topology.py:558-656 | The check node by node and gate by gate: last nodes end under their own gate, every other node names its continuation, detached runs are supervised, a human gate is named exactly where it guards a direct dependent; gates are declared and bound once. |
| `WorkflowRules.RefusedSeal` | utilities/capability-route.py:408-430 | The error of a refused sealing names a node and the rule it breaks. |
| `WorkflowContract.WorkflowContract` | utilities/capability-route.py:394-435 | Succeeds if and only if every node can be sealed and there is a sink; then the terminals are exactly the sinks and the continuations cover exactly the rest. |
| `WorkflowContract.ExpandedStands` | utilities/capability-route.py:313-435 | With fresh leg names, the expansion of a validated recipe is non-empty, acyclic and closed, with unique ids, and every node can be sealed. |
| `WorkflowContract.ExpandedContinues` | tools/capability_topology.py:558-656 | With fresh leg names, the expansion of a validated recipe passes the same rules on continuations and human gates, under the same bindings. |
| `WorkflowContract.LeadsToSink` | utilities/capability-route.py:426-427 | Going from dependent to dependent in an acyclic graph ends at a sink. |
| `Sealing.SealsExactly` | utilities/capability-route.py:394-435 | For every validated recipe, with or without fresh leg names, all nodes of the expansion can be sealed if and only if whoever gives out one name, a node or an added leg, agrees on whether it has dependents; and the same condition decides the validator's rule on sinks. |
| `Sealing.SealExpanded` | utilities/capability-route.py:394-435 | Sealing the expansion of a validated recipe succeeds if and only if that condition holds; then the terminals are exactly the sinks, the continuations cover exactly the other names, and every name has a dependency path to a terminal. |
| `Sealing.SoundAgrees` | utilities/capability-route.py:394-435 | With fresh leg names sealing never raises. |
| `Sealing.SealingMayRaise` | utilities/capability-route.py:407-424 | The concrete input: a recipe valid in graph, scopes, continuations and group whose expansion cannot be sealed. |
| `Evidence.NormalizeIdempotent` | utilities/capability-route.py:184-239 | Sealing dispatch evidence a second time changes nothing. |
| `Evidence.ChainReproduced` | utilities/capability-route.py:241-301 | The fallback chain is the same when it is derived from the sealed evidence, and it passes the chain check. |
| `Evidence.SidesPartition` | utilities/capability-route.py:241-274 | Every checked row is on exactly one side of the chain. |
| `Evidence.HeadlessIdempotent` | utilities/capability-route.py:65-92 | Sealed quick evidence is canonical: normalizing and sorting it again changes nothing. |
| `EvidenceOutcome.RowAccepted` | utilities/capability-route.py:184-215 | A row is accepted if and only if its nine fields are there, checked, launched by the conductor, in the words and for the parent's depth, and without a broker. |
| `EvidenceOutcome.SealedExactly` | utilities/capability-route.py:184-239 | Evidence is sealed if and only if every row is good, and then holds of each row, in order, exactly its checked fields. |
| `EvidenceOutcome.ChainExactly` | utilities/capability-route.py:241-274 | The chain is built if and only if the evidence is good and some row is supported; it has the four hops in order, each with exactly its rows in their order. |
| `EvidenceOutcome.HeadlessExactly` | utilities/capability-route.py:65-92 | Quick evidence is sealed if and only if it holds good candidates, one for each harness and one supported; then the six fields of each, sorted by harness. |
| `RouteCompiler.RealizedGroups` | utilities/capability-route.py:373-388 | The grouping loop gives one row per group, in order of first appearance, with its members in node order. |
| `RouteCompiler.ContractOfFits` | utilities/capability-route.py:394-435 | The contract is determined by the sealed graph, also where a name is given twice, so the loop and the comparison agree. |
| `CompileThenVerify.LegsFineExactly` | utilities/capability-route.py:770-783 | The legs of an anchor pass the verifier's group check if and only if their scopes stay apart. |
| `CompileThenVerify.GroupsFineExactly` | utilities/capability-route.py:769-783 | With fresh leg names, the groups of an expansion hold if and only if the legs of every group stay apart and the groups the recipe presets by itself are complete, in order, apart and of no realized id. |
| `CompileThenVerify.GroupsHoldExactly` | utilities/capability-route.py:769-793 | On any nodes, all group checks pass and the derived summary equals the compiler's if and only if all members are agents and each group is complete and listed in the order of its legs. |
| `CompileThenVerify.OneScopeSuffices` | utilities/capability-route.py:780-783 | One plain scope keeps all legs of an anchor apart. |
| `CompileThenVerify.TwoScopesMayCollide` | utilities/capability-route.py:780-783 | Two scopes of one anchor whose legs collide. |
| `CompileTheorem.DepthKept` | utilities/capability-route.py:794-795 | The deepest agent of the expansion is the deepest of the recipe, whether or not leg names clash. |
| `CompileTheorem.StagedRouteVerifies` | utilities/capability-route.py:643-866 | For every valid recipe, a compiled staged route is accepted by the verifier under the same registry if and only if the keys its expanded nodes carry are fine and its groups hold; `AcceptedIsSound` says what acceptance means. |
| `CompileTheorem.StagedRecipeVerifies` | utilities/capability-route.py:643-866 | With fresh leg names, that is: if and only if the keys of the recipe's nodes are fine, no two legs of one group may write to the same place, and groups the recipe presets are fine. |
| `CompileTheorem.NodesFineExactly` | utilities/capability-route.py:719-768 | The verifier's look at the single nodes of a compiled route passes if and only if their carried keys are fine; depth, profile and owner policy always hold. |
| `CompileTheorem.DirectRouteVerifies` | utilities/capability-route.py:797-815 | Every compiled direct route is accepted; `DirectCompiles` and `CompiledTier` say which requests give one. |
| `CompileTheorem.QuickRouteVerifies` | utilities/capability-route.py:816-841 | Every compiled quick route is accepted; `QuickCompiles` and `CompiledTier` say which requests give one. |
| `CompileOutcome.CompiledTier` | utilities/capability-route.py:533-536 | The tier of a compiled route: direct exactly if asked for, without signals and with all predicates; quick exactly without signals and if asked for or direct misses a predicate; otherwise the requested tier, at least standard. |
| `CompileOutcome.RefusedAtOnce` | utilities/capability-route.py:523-536 | Unknown predicates, tracking signals, unknown signals and small composed routes are refused in that order. |
| `CompileOutcome.DirectCompiles` | utilities/capability-route.py:538-549 | When exactly a direct request is compiled, and every field of its route. |
| `CompileOutcome.QuickCompiles` | utilities/capability-route.py:550-566 | When exactly a quick request is compiled, and every field of its route. |
| `CompileOutcome.StagedCompiles` | utilities/capability-route.py:567-628 | When exactly any other request is compiled, and that its route seals the expansion node by node with chain, affinity, contract and evidence. |
| `VerifySound.AcceptedIsSound` | utilities/capability-route.py:657-866 | Whatever route the verifier accepts, compiled or not: contract, extensions, bindings, gates, owner, node rules, group rows with disjoint legs, deepest depth, chain of the sealed evidence on every depth-2 node, gate evidence, spec mark, and the shape of its tier. |
| `VerifySound.ContractExactly` | utilities/capability-route.py:701-703 | The contract a route is held against is exactly the one that lists the names nobody depends on and how each other name goes on, the last node of a name deciding. |
| `VerifySound.ChangedIsRefused` | utilities/capability-route.py:690-795 | An accepted route changed in owner profile, depth, spec mark, groups, extensions, bindings or contract, in any of them, is refused. |
| `VerifySound.ChangedChainIsRefused` | utilities/capability-route.py:855-865 | An accepted route with another chain on some depth-2 node is refused. |
| `MarkerInvariant.CrashInv` | utilities/capability-route.py:1134-1187 | Any prefix of legal writes keeps the disk invariant and every immutable file. |
| `MarkerCalls.PublishLegal` | utilities/capability-route.py:1227-1325 | Publication writes legally, touches no row, and when it succeeds answers with a numbered marker of this call that the attempt is linked to. |
| `MarkerCalls.PublishAgain` | utilities/capability-route.py:1246-1291 | Publishing again for a linked attempt succeeds if and only if it is no owner chain and the evidence path is the marker's; then it gives that marker and creates nothing. |
| `MarkerCalls.CompleteLegal` | utilities/capability-route.py:1327-1460 | Every call writes legally and changes no row but its attempt's, from unmarked to marked. |
| `MarkerRuns.CanonicalIsNumbered` | utilities/capability-route.py:1179-1187 | After any run with crashes the canonical marker equals its numbered history entry, and the numbers up to it have no gaps. |
| `MarkerRuns.HistoryAndLinksAreImmutable` | utilities/capability-route.py:1179-1185 | History entries and attempt links are never changed or removed by any later run. |
| `MarkerRuns.NumbersGrow` | utilities/capability-route.py:1124-1132 | A marker with a new number has a larger number than all before it. |
| `MarkerRuns.OtherDigestRefused` | utilities/capability-route.py:1246-1260 | Naming a linked attempt with other evidence fails and writes nothing. |
| `MarkerRuns.LinkedDigestIsFinal` | utilities/capability-route.py:1240-1291 | Over any run and any continuation, two successful calls for one link file name one attempt, evidence of one digest, and get one marker. |
| `MarkerRuns.RetryGivesSameMarker` | utilities/capability-route.py:1246-1291 | After a call that finished and any continuation of the run, the same call gives the same marker and edits no row, if and only if the attempt is no owner chain and the evidence path is unchanged. |
| `MarkerRetry.RetryAfterCrash` | utilities/capability-route.py:1227-1325 | A call that would have succeeded crashes after any number of its writes and is made again: it succeeds if and only if its link is not on disk yet or can be repeated (no owner chain, the marker's own evidence file), and gives the crashed call's marker if and only if the crash did not fall between a new history entry and the canonical marker; then it gives the next number. |
| `MarkerRetry.RetryLater` | utilities/capability-route.py:1246-1291 | Once the link of the crashed call is on disk: after any continuation of the run a retry succeeds if and only if its row lets it and the link can be repeated, and then gives the crashed call's marker. |
| `MarkerRetry.CompleteForm` | utilities/capability-route.py:1337-1460 | A call succeeds if and only if its checks pass and its publication succeeds; its writes are those of the publication and then the row edit. |
| `MarkerRetry.RetryMayRenumber` | utilities/capability-route.py:1179-1186 | The concrete input: a call with number 1 that, crashed behind its first write, is answered with number 2. |
| `MarkerRetry.OwnerChainIsStuck` | utilities/capability-route.py:1246-1260 | The concrete input: an owner chain crashed between its link and its row, refused after any continuation, its row still open. |
| `MarkerRuns.MarkedRowsAreFinal` | utilities/capability-route.py:1413-1441 | A row that carries a completion mark never changes again. |
| `MarkerRuns.CompletionEditsOwnRow` | utilities/capability-route.py:1372-1379 | A call, crashed anywhere, changes at most the first well-formed row of its attempt, and only to mark it. |
| `MarkerRules.SuccessFoundRow` | utilities/capability-route.py:1365-1430 | A registry call that succeeds found as the first row of its attempt a valid one, no sub-session, of exactly this route id, hash and node, agreeing with explicit metadata, and open, running, closed by a supervisor with verdict pass, or completed before. |
| `MarkerRules.OtherRowRefused` | utilities/capability-route.py:1390-1430 | Any other first row gives an error, and no file or row is written. |
| `MarkerRules.WhyRefused` | utilities/capability-route.py:1390-1430 | Which error, rule by rule in the order of the source. |
| `MarkerRules.NoRowRefused` | utilities/capability-route.py:1353-1389 | Without an attempt, a writable registry or a row the call fails and edits no row. |
| `MarkerRules.UnregisteredNeedsBoth` | utilities/capability-route.py:1338-1343 | Without a registry, an attempt without metadata or metadata without an attempt is refused before anything is written. |
| `MarkerRules.UnregisteredLeaves` | utilities/capability-route.py:1349-1358 | Without a registry a success answers with a marker for the metadata given, filed and linked, and touches no row. |
| `MarkerRules.AxesAre` | utilities/capability-route.py:1072-1122 | The axes of a marker, case by case: detached run, owner chain, inline without metadata, and the attempt's own metadata. |
| `MarkerRules.SuccessLeaves` | utilities/capability-route.py:1431-1460 | A registry call that succeeds answers with a marker of its route, node, gate, evidence and its row's axes, filed under its number and linked; its row alone is closed with that marker unless it was completed before, and the status says which. |
| `MarkerRules.FirstCompletion` | utilities/capability-route.py:1134-1187 | The first completion of an attempt writes the marker with the next free number in full, makes it canonical, links it twice and closes the row; no other file changes. |
| `MarkerRules.SafeNameAt` | utilities/capability-route.py:1220-1225 | The file-name form of an attempt keeps ASCII letters, digits, dot, dash and underscore and replaces every other ASCII character. |
| `MarkerRules.MarkedByItsCall` | utilities/capability-route.py:1431-1460 | Over any run with crashes, a row that became marked was marked by one event and has stayed as that left it; if a completion did it, row, route, node and attempt are those of the call. |
| `MarkerPaths.NamesDistinctExactly` | utilities/capability-route.py:1220-1225 | For any set of node ids and any choice of letters and digits outside ASCII, different files have different names if and only if no id continues another with a dot and characters that are kept in an attempt's file name. |
| `MarkerPaths.AttemptsAreNamed` | utilities/capability-route.py:1220-1225 | The protocol's own naming of attempts is such a rule, and keeps exactly the names made of kept characters. |
| `MarkerPaths.DotlessIdsDistinct` | utilities/capability-route.py:1220-1225 | Node ids without dots keep all files apart. |
| `MarkerPaths.DottedNamesCollide` | utilities/capability-route.py:1134-1136 | The concrete input: a canonical marker and a history entry of one name. |
| `CompletionStoreObject.CompletionStore.WriteOnce` | utilities/capability-route.py:878-885 | Creates the file or accepts an equal one; refuses other content and changes nothing. |
| `CompletionStoreObject.CompletionStore.NextMarkerSequence` | utilities/capability-route.py:1124-1132 | The directory scan gives the successor of the node's largest number. |
| `CompletionStoreObject.CompletionStore.WriteCompletionMarker` | utilities/capability-route.py:1134-1187 | Performs exactly the specified writes in their order and gives the specified answer. |
| `CompletionStoreObject.CompletionStore.PublishCompletion` | utilities/capability-route.py:1227-1325 | Performs exactly the specified writes in their order and gives the specified answer. |
| `CompletionStoreObject.CompletionStore.CompleteNode` | utilities/capability-route.py:1327-1460 | Performs exactly the specified writes in their order and gives the specified answer, on every branch; `SuccessFoundRow`, `OtherRowRefused` and `SuccessLeaves` say in row fields what those are. |
| `Supervisor.TypedReceipt` | utilities/claude-session-supervisor.py:62-116 | The loop accepts a receipt if and only if it names the parent and exactly the requested children, each once, with a known status and action. |
| `Supervisor.TurnsAreBounded` | utilities/claude-session-supervisor.py:383-458 | If closed children never reopen, the loop has stopped after 2 * max + 2 turns, although the reconcile branch counts nothing. |
| `Supervisor.CleanExitCovers` | utilities/claude-session-supervisor.py:398-458 | In every world, exit 0 means that every child of the last registry read was delivered in exactly one receipt and is neither open nor running; receipt batches are disjoint and match the requested sets. |
| `Supervisor.BatchesDisjoint` | utilities/claude-session-supervisor.py:398-426 | At any turn of any run, the receipts handed over so far have no child in common. |
| `Supervisor.Supervise` | utilities/codex-app-server-supervisor.py:533-596 | The loop as it runs ends, within the bound, in the specified last turn, with pairwise disjoint receipt batches. |
| `Supervisor.NeverStopsExactly` | utilities/claude-session-supervisor.py:433-452 | The loop never stops if and only if it reaches a turn from which on every turn succeeds, lists only delivered children, finds some open and closes all of those. |
| `Supervisor.ReopeningNeverStops` | utilities/claude-session-supervisor.py:438-444 | The concrete input: a child that is closed and found open again every turn, for any positive continuation limit. |
| `SupervisorRules.ReceiptExactly` | utilities/claude-session-supervisor.py:62-116 | The receipts that are accepted, word for word: schema, state, parent, and exactly one known entry for each child asked for. |
| `SupervisorRules.ExitCodes` | utilities/claude-session-supervisor.py:389-458 | Exit 0 exactly after a succeeded turn that left nothing new or open, was settled and passed; a failed turn keeps its code, or 3 for none; what cannot be read, settled or finished gives 70. |
| `SupervisorRules.GoesOnExactly` | utilities/claude-session-supervisor.py:398-452 | When exactly the loop goes on after a turn. |
| `SupervisorRules.NextTurn` | utilities/claude-session-supervisor.py:398-452 | What the next turn starts from: the children handed over, the receipt, the continuations paid and the combinations put to the model. |
| `AppServerObject.AppServer.Request` | utilities/codex-app-server-supervisor.py:317-330 | Answers with the first message that carries its id; all others wait in arrival order and none is lost. |
| `AppServerObject.AppServer.NextEvent` | utilities/codex-app-server-supervisor.py:338-339 | Hands out the oldest message not handed out yet. |
| `PngLayout.EveryPixelOnce` | tools/figure-semantic-verify.py:275-278 | Every pixel lies in exactly one of the seven passes. |
| `PngLayout.ExtentCounts` | tools/figure-semantic-verify.py:279-280 | A position is below a pass's extent exactly if it falls inside the image. |
| `PngLayout.PixelHasOnePlace` | tools/figure-semantic-verify.py:275-282 | A position lies in the image if and only if it has a place (pass, column, row), and it has only one. |
| `PngLayout.PassesCoverImage` | tools/figure-semantic-verify.py:275-282 | The pass sizes add up to width times height. |
| `PngLayout.RowFitsPixels` | tools/figure-semantic-verify.py:273-282 | A row is just long enough for its pixels. |
| `PngLayout.RowInBounds` | tools/figure-semantic-verify.py:294-299 | Every row the scan visits lies inside the decoded bytes. |
| `PngLayout.RowsDisjoint` | tools/figure-semantic-verify.py:294-299 | Rows do not overlap. |
| `PngLayout.RowsTile` | tools/figure-semantic-verify.py:294-299 | Every decoded byte belongs to a row. |
| `PngLayout.BuildRowShapes` | tools/figure-semantic-verify.py:271-282 | The loop over the passes lists exactly the non-empty ones with their row counts and lengths. |
| `PngLayout.ScanFilters` | tools/figure-semantic-verify.py:294-299 | The scan accepts if and only if every row starts with a filter type of at most 4, and ends at the last byte. |
| `PngStream.ReadWhatWasWritten` | tools/figure-semantic-verify.py:194-206 | Reading a written chunk gives the chunk and exactly what follows it. |
| `PngStream.WalkSound` | tools/figure-semantic-verify.py:193-245 | Every stream the walk accepts is the written form of a sequence of fitting chunks, and the walk knows its header, data and palette. |
| `PngStream.WalkComplete` | tools/figure-semantic-verify.py:193-245 | The walk accepts the written form of every sequence of fitting chunks. |
| `PngStream.WholeStreams` | tools/figure-semantic-verify.py:207-243 | Fitting chunk by chunk is the same as the declarative ordering rules over the whole stream. |
| `PngStream.PngDimensions` | tools/figure-semantic-verify.py:177-300 | Dimensions are returned if and only if the payload is the written form of a well-formed stream with a complete image, and they are its header's. |
| `PngRules.HeaderExactly` | tools/figure-semantic-verify.py:247-270 | A header is accepted if and only if both sizes are positive, colour type and bit depth are one of fifteen pairs, the methods are zero, and a palette image has a palette. |
| `PngRules.OnePixel` | tools/figure-semantic-verify.py:257-271 | The decoded bytes of one pixel for every colour type and depth, in numbers: 8-bit RGB four, 8-bit RGBA five. |
| `PngRules.InterlacedSize` | tools/figure-semantic-verify.py:275-283 | The expected size of an interlaced image as a sum of its seven passes in numbers. |
| `PngRules.PlainVerdict` | tools/figure-semantic-verify.py:247-300 | The verdict on an image that is not interlaced in numbers: header, size, limit, decompressed length, and a filter type at the start of every row. |
| `PngRules.StreamExactly` | tools/figure-semantic-verify.py:207-243 | The order of chunks: header first and only first, one palette of whole entries before the data and within the bit depth, image data in one run, end empty, last and after data, anything else only if ancillary. |
| `PngRules.PaletteLimits` | tools/figure-semantic-verify.py:225-227 | The largest palettes by bit depth: 2, 4, 16 and 256 entries. |
| `PngRules.ShowsExactly` | tools/figure-semantic-verify.py:177-245 | What a payload must be for its dimensions to be returned: signature, lettered chunks and these rules. |
| `PngRules.ChunkAsWritten` | tools/figure-semantic-verify.py:194-206 | A written chunk byte by byte: length, kind, data and checksum, most significant byte first. |
| `PngRules.DataInOrder` | tools/figure-semantic-verify.py:228-236 | What is decompressed is the image data of all chunks in their order. |
| `CodeSpans.ChangesOnlySpans` | tools/figure-semantic-verify.py:107-132 | Length and line breaks are kept, and a character changes only to a blank and only inside a span from an unescaped run to the next run of its length. |
| `CodeSpans.RunFate` | tools/figure-semantic-verify.py:112-130 | Every run of backticks is covered by a span, escaped, or without a closer. |
| `CodeSpans.StripSettles` | tools/figure-semantic-verify.py:107-132 | In the blanked text every remaining run is escaped or unmatched. |
| `CodeSpans.StripIdempotent` | tools/figure-semantic-verify.py:107-132 | Blanking twice is blanking once. |
| `CodeSpans.BlankSpan` | tools/figure-semantic-verify.py:126-129 | Blanks one more span in place and nothing else. |
| `CodeSpans.StripInlineCodeSpans` | tools/figure-semantic-verify.py:107-132 | The loop over runs, with its jumps, computes the blanking the lemmas are about. |
| `CodeSpanRules.EscapedExactly` | tools/figure-semantic-verify.py:114-121 | A run is escaped if and only if an odd number of backslashes stands directly in front of it. |
| `CodeSpanRules.StripExactly` | tools/figure-semantic-verify.py:107-132 | The blanked text character by character: spans follow each other from an unescaped run to the next one of its length, skip no run that could open one, and are blanked but for line breaks. |

## Left out

- GatewayTheorems.DeliveredAtMostOnce: assumes distinct live request ids, answers only to written requests, and no second request for a delivery that is prepared and pending; `RedeliveryExactly` shows the last is needed.
- Schedule.ScheduleIndependence: assumes that no node reads inside the scopes of an unordered node; `OrderIrrelevantExactly` shows that this is exactly what it takes.
- Supervisor.TurnsAreBounded: assumes that closed children stay closed; `NeverStopsExactly` says when the loop has no bound.
- GatewayRedelivery.RedeliveryExactly: is stated where the queued contexts are within their size limit and turns have ended in order; elsewhere a second copy can be harmless, because the drain that would write it raises first.
- CompileTheorem.StagedRouteVerifies: assumes a recipe and registry the validator accepts; the verifier's own re-validation of an embedded composed recipe is taken as passed. A preset group key without the other group keys makes the compiler raise and is not represented; an empty one counts as none.
- WebSocketObject.WebSocket.ReadMessage: ends at the reassembled text; decoding it as UTF-8 and JSON and asking for an object is not modelled.
- MarkerPaths.NamesDistinctExactly: attempt ids that differ only in characters replaced by an underscore share a link, as in the source; which characters outside ASCII are letters or digits is left open.
- WorkflowContract.ExpandedStands: assumes fresh leg names; without them uniqueness fails, and `SealsExactly` says when the rest survives.
- WorkflowContract.ExpandedContinues: assumes fresh leg names; the source does not repeat the rules on human gates for expanded graphs.
- ExpansionOutcome.GroupHasWidth: assumes fresh leg names and a recipe that presets no group keys; `ExpandedSize` counts the nodes without either.
- Gateway identifiers are opaque numbers, and TUI request ids with the gateway's own prefix are excluded.
- The interval between an exception in the upstream or TUI loop and the disconnect that follows it: the model takes both as one step, while the source releases its lock in between.
- Failing or oversized writes of the ledger file, its checksum and its schema check.
- Validation of delivery receipts; what the model takes from a receipt is its identity and whether its rendered context fits.
- Fleet wait publishing, app-server request bookkeeping, the trace, the payload of active turns and the owner tag of a pending start.
- The WebSocket handshake, JSON syntax, threads and the control socket's framing.
- In the expansion node records are values: that the first leg is the anchor's own record, updated in place, is modelled by replacing it.
- Node keys that neither the validator's graph rules nor the verifier relate to another key (role, resource class, runtime requirements), the transport keys the validator settles by itself, the route hash, and legacy contract versions 1 and 2.
- The rest of bucket-anchor validation, unit front matter and fixed-vocabulary checks of the registry.
- Sorted lists of ids are sets where only membership is compared.
- SHA-256 digests and file contents are abstract values; timestamps are dropped.
- A write-once file that a crash leaves half-written: each file write is one atomic step.
- Node and registry locks: completion calls of one route are one after another.
- MarkerRuns.MarkedRowsAreFinal: other processes add registry rows and close open ones; other edits of the registry file are not modelled.
- Supervisor prompts, state files, the initial prompt and the turn itself; what a turn does to the registry is an arbitrary function of the turn number.
- Inflating PNG data and CRC-32 are parameters of the PNG model.
- Removing fenced code and the rest of the claim verifier.
- Text generation, scanning, launchers and hooks.
