# Verified model of the sandbox-agent session machinery

This project models, in Dafny, the parts of sandbox-agent where many
asynchronous calls share state, and the small algorithms next to them, and
proves what they are relied on for:

- the session client of the TypeScript SDK: which session an envelope belongs
  to, event indexes and the order of the event log, single-flight connections,
  permission requests, lazy restore with a replay, and the two views of the
  current mode (`Routing`, `SessionLog`, `Disposal`, `Progress`,
  `EventPersistence`, `LiveConnections`, `Permissions`, `LazyRestore`,
  `ReplayQueue`, `Replay`, `ModeSync`);
- the ACP HTTP transport: its life cycle, the filter for repeated responses,
  and the server-sent events reader (`Transport`, `TransportClass`,
  `DuplicateWindow`, `SseText`, `SseEvents`, `Text`), and all of them together
  (`Inbound`);
- the in-memory session store: capped retention, trimming and paging
  (`SessionStore`, `Order`);
- the publishing order of packages (`TopoSort`), shared subscriptions of the
  Foundry client (`Subscriptions`), the JSONC comment stripper (`Jsonc`) and
  the logfmt printer (`Logfmt`).

## How the concurrent parts are modelled

A stretch of code between two awaits runs without interruption, so it is one
step. A protocol module has a value `State`, the datatype of its actions, and
a total function `Step`; an action that is not enabled changes nothing, so a
run is any list of actions and a lemma about `Run(actions)` speaks about every
interleaving. The objects themselves are classes with the source's fields;
each method carries the code of one step and ensures
`View() == Step(old(View()), ...)`, so what is proved of runs holds of the
objects.

Specifications that do not look at the implementation's own fields: `Routing`
compares the connection's four tables with a ledger that only grows; `Transport`
judges the history of observable events by what was observed before, and what
came in with what the actions brought; `DuplicateWindow` compares the set and
the queue with a scan of the last 2048 ids, and says which envelopes are
responses by their members; `SessionLog` tells each envelope's story, its
conflicts and errors, from the actions; `LiveConnections` tells what becomes of
a creation from the reports on it; `Subscriptions` compares the table with the
subscriptions that callers made and did not end; `SessionStore` compares the
sessions held with all keys ever written; `SseEvents` and `Jsonc` have a printer
or a grammar; and `Logfmt` a parser.

## Where the code does less than one would expect

- Normalising CRLF read by read is right if and only if no read ends between
  CR and LF (`SseText.ReadsDoNotMatter`, `SseText.TornCrlfHidesAnEvent`).
- Inbound routing does not check that an envelope is a response. An agent
  request is routed by its session exactly when its id is not one of the
  client's outstanding ids; otherwise the real response is lost to its session
  (`Routing.AgentRequestsNeedDisjointIds`, `Routing.CollidingIdLosesTheResponse`).
- session/new envelopes are matched with calls by order alone: over whole runs,
  every envelope is attributed right if and only if each session/new envelope
  carries the oldest call not yet written (`Routing.AllRightIffInCallOrder`).
- Disposing forgets the persistence chains, and nothing keeps a client from
  being used, and disposed, again. Over whole runs with any number of disposals:
  at every moment, and whatever happens until the next dispose, one envelope at
  a time is being persisted if and only if each dispose came when every envelope
  was finished; and the log is in arrival order if and only if each dispose came
  when every envelope was finished, or already stored and with its listeners, or
  waiting for a seed that has failed (`Disposal.OneAtATimeIff`,
  `Disposal.ArrivalOrderIff`).
- A dispose does not close a connection whose handshake failed after its
  transport had opened; nothing ever does (`LiveConnections.DisposeClosesWhatExisted`,
  `LiveConnections.AbandonedStaysOpen`, `LiveConnections.FailedHandshakeSurvivesDispose`).
- Several operations read a session's record, wait, and write it back. Such a
  write-back can put the record of the old connection back while a send is
  restoring the session, and the send then restores it again. A send survives
  exactly the write-backs that land before it relies on the connection's
  binding or that carry the bound agent id
  (`LazyRestore.SendSurvivesExactlyHarmlessWriteBacks`, `LazyRestore.StaleWriteBackRestoresTwice`).
- An agent that answers with empty session ids makes a send to a stale session
  restore without end; a restore is the last one in every continuation if and
  only if its new id is not empty (`LazyRestore.EmptyIdsRestoreForever`,
  `LazyRestore.RestoreIsTheLastIffIdIsReal`).
- A write brings the event stream back only if it does not meet a loop that has
  returned and is not yet cleared; if it does, the transport stays open without
  a loop until the next write (`Transport.WritesStartTheLoopIff`,
  `Transport.WriteMeetsAReturnedLoop`).
- Hydrating from an agent whose mode option has no value yet makes the two views
  of the mode disagree (`ModeSync.UnsetModeOptionParts`).
- With a dependency cycle no order can be right; without one the order always
  is (`TopoSort.Sort`).
- An observer that throws on an inbound response uses up its id and its event id
  although the response is not delivered: sent again, it is dropped, and a
  reconnect does not ask for it (`Transport.SwallowedResponseIsLost`). What the
  filter lets through is what is delivered if and only if no arrival that reached
  the open transport and passed the window met an observer or a stream that
  throws (`Transport.AdmittedIsDelivered`).
- A listener subscribed twice is one entry, so the first unsubscribe ends both
  subscriptions, and a repeated one can end a later subscription. Subscribers
  are served, and nobody else, if and only if each unsubscribe came when no
  other live subscription had its key and listener
  (`Subscriptions.SubscribersAreKeptApartIff`).
- Sandboxes whose ids have colons can share a subscription: a key belongs to one
  sandbox only if and only if none of its three ids has a colon
  (`Subscriptions.SandboxKeyIsUnsharedIff`).
- A log line can be read back from the left if and only if no printed key has an
  equals sign. Different records never print alike as long as no key has an
  equals sign, or no key has a space; keeping neither of the two out of keys is
  not enough (`Logfmt.LineReadsBackIff`, `Logfmt.LinesAreUniqueIff`,
  `Logfmt.SuchKeysCollide`).
- What an event carries depends on what the stream's buffer already holds
  (`Inbound.LeftoverJoinsTheNextEvent`), so a printed list is received as printed
  when it begins where an event ended (`Inbound.PrintedStreamIsDelivered`).

## Model

| member | source | states |
|---|---|---|
| Routing.StepAgrees | sdks/typescript/src/client.ts:670-711 | one envelope, bind or call: the four tables keep agreeing with the ledger, and the envelope goes to the session the ledger names |
| Routing.EveryEnvelopeIsRoutedRight | sdks/typescript/src/client.ts:564-567 | in every admissible run in call order each envelope is attributed to its true session, each local session is bound to the agent session id it was given last, and localByAgent[sessionByLocal[l]] = l |
| Routing.OldAgentIdsKeepRouting | sdks/typescript/src/client.ts:705-711 | an agent session id leads to its local session for ever, after any number of rebinds |
| Routing.ResponsesAreAttributedOnce | sdks/typescript/src/client.ts:690-700 | the first response goes to the session that asked and binds the session id it carries; a second copy, at any later time, goes nowhere |
| Routing.AllRightIffInCallOrder | sdks/typescript/src/client.ts:670-703 | over whole runs: every envelope is attributed to the session it belongs to if and only if each session/new envelope carried the oldest call not yet written |
| Routing.AgentRequestsNeedDisjointIds | sdks/typescript/src/client.ts:690-702 | an agent request is routed by its session if and only if its id is not outstanding (or leads to that session anyway) |
| Routing.CollidingIdLosesTheResponse | sdks/typescript/src/client.ts:690-699 | on a collision the request is misrouted and the later response reaches no session |
| Routing.EmptyCountsAsAbsent | sdks/typescript/src/client.ts:670-711 | an empty id or session id counts as none, in either direction and whatever the tables hold |
| Routing.LiveAcpConnection.BindSession | sdks/typescript/src/client.ts:564-567 | updates both binding tables and nothing else |
| Routing.LiveAcpConnection.BeginCreate | sdks/typescript/src/client.ts:577-582 | session/new calls queue in call order |
| Routing.LiveAcpConnection.CreateFailed | sdks/typescript/src/client.ts:585-589 | a failed call leaves the queue, its first occurrence only |
| Routing.LiveAcpConnection.ResolveSessionId | sdks/typescript/src/client.ts:670-703 | the four tables and the answer after any envelope, in either direction, are those of the routing step |
| SessionLog.IndexesAreUnique | sdks/typescript/src/client.ts:2187-2213 | every interleaving, failed seeds and disposal included: one seed success at most, indexes handed out strictly increase and exceed everything stored before |
| SessionLog.IndexesAreConsecutive | sdks/typescript/src/client.ts:2187-2202 | in every run the indexes handed out are consecutive, from the one after the highest stored |
| SessionLog.LogIsInArrivalOrder | sdks/typescript/src/client.ts:2065-2139 | until dispose one envelope at a time is being persisted, events are stored in arrival order with strictly increasing indexes, whatever fails |
| SessionLog.LaterClientContinuesAbove | sdks/typescript/src/client.ts:2194-2239 | a later client on the trimmed store hands out only indexes above everything the first one stored |
| SessionLog.ChainNeverStalls | sdks/typescript/src/client.ts:2123-2138 | in every run the first unfinished envelope is at work or may start, whatever failed before it; what reaches the listeners is stored; the table holds no envelope that is cleaned up |
| SessionLog.EnvelopeFate | sdks/typescript/src/client.ts:2076-2095 | in every run, disposals included: an envelope that is over was stored, once, if and only if it met fewer than three index conflicts and no other error, and under an index above all that conflicted; one that met three, or another error, is over and not stored |
| SessionLog.FailedIsNeverStored | sdks/typescript/src/client.ts:2089-2094 | after the third conflict, or any other error, the envelope is stored in no continuation |
| Progress.NothingMoreIsLost | sdks/typescript/src/client.ts:2065-2139 | from every reachable state, failures, retries and disposals behind it, there is a way on after which every envelope is finished, and each is then stored exactly once, except those that had failed by then or wait for a failed seed |
| Disposal.OneAtATimeIff | sdks/typescript/src/client.ts:1015-1042 | in any run, with any number of disposals: at every moment one envelope at a time is persisted, whatever happens until the next dispose, if and only if each dispose came when every envelope was finished |
| Disposal.ArrivalOrderIff | sdks/typescript/src/client.ts:2113-2139 | likewise the log is in arrival order at every moment, whatever happens until the next dispose, if and only if each dispose came when every envelope was finished, already stored, or waiting for a seed that has failed |
| Disposal.CanBeOvertaken | sdks/typescript/src/client.ts:2123-2130 | after a dispose any other envelope, queued, waiting for a seed, holding an index or inserting, can be overtaken by a newcomer |
| Disposal.DoomedDoesNoHarm | sdks/typescript/src/client.ts:2200-2212 | an envelope waiting for a failed seed is neither finished nor stored, and yet a dispose leaves the log in order until the next one |
| EventPersistence.EventPersister.Enqueue | sdks/typescript/src/client.ts:2113-2130 | chains an envelope behind its session's last one; other sessions unchanged |
| EventPersistence.EventPersister.EnsureSeeded | sdks/typescript/src/client.ts:2194-2213 | uses the counter, joins the seed under way or begins one; other sessions unchanged |
| EventPersistence.EventPersister.StartPersisting | sdks/typescript/src/client.ts:2123-2128 | an envelope begins when the one before it is over, successful or not |
| EventPersistence.EventPersister.SeedScanned | sdks/typescript/src/client.ts:2200-2202 | a successful scan starts the counter above the highest stored index |
| EventPersistence.EventPersister.SeedSettled | sdks/typescript/src/client.ts:2203-2205 | a settled seed leaves the table, so a failed one can be retried |
| EventPersistence.EventPersister.AllocateIndex | sdks/typescript/src/client.ts:2187-2192 | hands out the counter's value and moves it on |
| EventPersistence.EventPersister.InsertSettled | sdks/typescript/src/client.ts:2076-2095 | stores the event, or retries a conflict with a new index up to three times, or gives up |
| EventPersistence.EventPersister.PersistenceSettled | sdks/typescript/src/client.ts:2132-2138 | the chain's last envelope removes the chain, an earlier one leaves it |
| EventPersistence.EventPersister.ForgetChains | sdks/typescript/src/client.ts:1028 | a dispose is one step of every session's log |
| LiveConnections.OneConnectionPerAgent | sdks/typescript/src/client.ts:2014-2063 | without dispose: one creation or live connection per agent, the raced branch never taken, all successful callers hold the same connection |
| LiveConnections.CallersGetWhatTheyWaitedFor | sdks/typescript/src/client.ts:2056-2062 | in every run, dispose or not, a caller waits until it wakes up with its creation settled; then it has the connection the creation came to, and fails if and only if it came to nothing |
| LiveConnections.CreationsMeetTheirFate | sdks/typescript/src/client.ts:2027-2053 | without dispose, a creation comes to what the first report on it says: its own connection if it opened, nothing if it failed |
| LiveConnections.WaitersShareTheOutcome | sdks/typescript/src/client.ts:2022-2062 | without dispose, over any continuation: whoever waits for a creation, owner or joiner, ends with its connection if it opened and fails if it did not, once it wakes up after that, and waits until then |
| LiveConnections.CallersAreServed | sdks/typescript/src/client.ts:2014-2057 | without dispose, a caller past its health wait gets the connection that a creation for its agent opened, or joins the creation another caller still waits for, or begins one; past a failed one it fails |
| LiveConnections.LoserGivesTheWinner | sdks/typescript/src/client.ts:2045-2049 | a creation that finds another connection in place closes its own and comes to the other one, which a creation of that agent opened |
| LiveConnections.DisposeLeavesNothingToShare | sdks/typescript/src/client.ts:1024-1027 | after a dispose the next caller of any agent begins a creation of its own |
| LiveConnections.DisposeClosesWhatExisted | sdks/typescript/src/client.ts:1024-1041 | when a dispose and those before it are over, a connection that was alive or being created at its start and that opened is closed if and only if its handshake did not fail |
| LiveConnections.AbandonedStaysOpen | sdks/typescript/src/client.ts:500-547 | a connection whose handshake failed is open and never closed in any continuation |
| LiveConnections.FailedHandshakeSurvivesDispose | sdks/typescript/src/client.ts:1030-1041 | the run in which a dispose waits for such a connection and ends with it open |
| LiveConnections.PendingHasAnOwner | sdks/typescript/src/client.ts:2055-2062 | in every run each pending entry has a caller that waits, and when a caller that began a creation wakes up after it settled, no entry is left for it; a failed creation never blocks the next attempt |
| LiveConnections.ConnectionTable.GetLiveConnection | sdks/typescript/src/client.ts:2017-2055 | reuses, joins or begins a creation, in one step |
| LiveConnections.ConnectionTable.FinishCreation | sdks/typescript/src/client.ts:2045-2052 | publishes the new connection, or closes it when another is in place |
| LiveConnections.ConnectionTable.CreationFailed | sdks/typescript/src/client.ts:500-547 | a rejected creation leaves its transport open when only the handshake failed |
| LiveConnections.ConnectionTable.CallerWakes | sdks/typescript/src/client.ts:2056-2062 | hands the result to a caller; the one that began the creation removes its own entry only |
| LiveConnections.ConnectionTable.BeginDispose | sdks/typescript/src/client.ts:1024-1027 | takes everything out of both maps |
| LiveConnections.ConnectionTable.FinishDispose | sdks/typescript/src/client.ts:1030-1041 | closes what was taken and what the awaited creations produced |
| Permissions.AdvertisedRepliesAreAccepted | sdks/typescript/src/client.ts:3042-3074 | which replies are accepted, both ways; an advertised one selects an offered option of its own kind |
| Permissions.PreferredOptionIsSelected | sdks/typescript/src/client.ts:3056-3074 | "once" selects an option to allow once, "always" one to allow always or else one to allow once, "reject" one to reject once or else one to reject always; of several, the first in the list |
| Permissions.AvailablePermissionReplies | sdks/typescript/src/client.ts:3042-3054 | a reply is advertised if and only if some option has a kind that it answers |
| Permissions.EachRequestSettlesOnce | sdks/typescript/src/client.ts:2284-2335 | between requests and answers of every run, a request is pending if and only if its promise is unsettled, and a settled promise never changes |
| Permissions.SettledStaysSettled | sdks/typescript/src/client.ts:2307-2324 | the same at every moment inside a request: whatever its listeners have settled so far keeps its outcome, however they go on and whether or not one throws |
| Permissions.AnsweringIsExact | sdks/typescript/src/client.ts:1547-1569 | an answer settles the request it names and no other, with an offered option that fits, a failure for an unsupported reply, or the raw response |
| Permissions.CancellingIsExact | sdks/typescript/src/client.ts:2337-2345 | destroying a session cancels exactly its own pending requests, disposing all of them |
| Permissions.FirstAnswerWins | sdks/typescript/src/client.ts:2316-2323 | the first accepted answer decides the outcome, whichever listener gives it, at whichever of its calls, and whatever they all do next |
| Permissions.HowARequestStands | sdks/typescript/src/client.ts:2284-2325 | after its listeners: cancelled if there were none; settled if one threw, as a failure unless it had been settled before; waiting with its own options if they all just looked on |
| Permissions.PermissionTable.RespondPermission | sdks/typescript/src/client.ts:1547-1562 | answers a pending request with the selected option, rejects it on an unsupported reply, and reports which |
| Permissions.PermissionTable.RawRespondPermission | sdks/typescript/src/client.ts:1564-1569 | answers a pending request with the given response, fails on any other id |
| Permissions.PermissionTable.CancelPendingPermissionsForSession | sdks/typescript/src/client.ts:2337-2345 | the loop settles exactly the session's entries |
| Permissions.PermissionTable.CancelAll | sdks/typescript/src/client.ts:1019-1022 | the loop of dispose settles every entry |
| Permissions.PermissionTable.EnqueuePermissionRequest | sdks/typescript/src/client.ts:2284-2325 | enters the request, calls the listeners, which may call back, and takes it back when one throws; with no listeners it is cancelled and never entered |
| LazyRestore.SendRestoresAtMostOnce | sdks/typescript/src/client.ts:1409-1439 | with non-empty agent ids and harmless write-backs of stale records, a send restores once at most, recurses once at most, and goes out with an agent id on which record and connection agree |
| LazyRestore.SendGoesOut | sdks/typescript/src/client.ts:1409-1432 | a send left to itself goes out: at once to a session the connection has bound, otherwise after one restore, on the new id, with the record brought up to date and the history queued; to a session that is not stored it fails |
| LazyRestore.NoNeedlessRestore | sdks/typescript/src/client.ts:1176-1184 | a resume that finds the session bound on this connection creates nothing; any other goes on to collect the history |
| LazyRestore.FailedSendIsOver | sdks/typescript/src/client.ts:1409-1439 | a send whose await throws restores and binds nothing more and never goes out |
| LazyRestore.SendSurvivesExactlyHarmlessWriteBacks | sdks/typescript/src/client.ts:1441-1511 | at every moment of a run the send would end well by itself, if and only if each write-back landed before the send relied on the binding or carried the bound agent id |
| LazyRestore.CurrentWriteBacksAreHarmless | sdks/typescript/src/client.ts:2155-2183 | a write-back of the agent id that the store holds when it lands is harmless |
| LazyRestore.StaleWriteBackRestoresTwice | sdks/typescript/src/client.ts:1186-1204 | the run in which an update that read the old record writes it back after the restored one: two restores, with real ids and no other resume |
| LazyRestore.RestoredSendFindsItsReplay | sdks/typescript/src/client.ts:1186-1204 | a send that restored the session finds the history it collected last queued, any other finds the queue as it was, unless another prompt came in between; write-backs included |
| LazyRestore.RestoreAgain | sdks/typescript/src/client.ts:1175-1205 | from any try that finds the wrong record, one restore leads to the next try, one level deeper, with the new id stored and bound and the collected history queued |
| LazyRestore.EmptyIdsRestoreForever | sdks/typescript/src/client.ts:1426-1430 | from any beginning with a stale record, an agent that answers with empty ids can make a send restore any number of times |
| LazyRestore.RestoreIsTheLastIffIdIsReal | sdks/typescript/src/client.ts:553-562 | when a restore gets its new id, no continuation restores again if and only if that id is not empty |
| ReplayQueue.ReplayGoesToOnePrompt | sdks/typescript/src/client.ts:599-621 | a replay text precedes a prompt exactly when the latest restore queued it and no prompt went out since; the user's blocks follow in order; no text goes to two prompts |
| ReplayQueue.ReplayTable.QueueReplay | sdks/typescript/src/client.ts:569-575 | the table holds, for each session, what its history of restores and prompts says |
| ReplayQueue.ReplayTable.SendPrompt | sdks/typescript/src/client.ts:607-613 | a prompt takes the queued text and puts it first |
| ModeSync.SetModeKeepsAgreement | sdks/typescript/src/client.ts:1486-1510 | set_mode leaves both views showing the mode that was set, keeps the choices and changes no other option |
| ModeSync.HydrateKeepsAgreement | sdks/typescript/src/client.ts:1369-1398 | hydrating keeps the mode that was set before, takes over the agent's when there was none, keeps agreement and changes only the mode option of the agent's list |
| ModeSync.HydrateTakesTheChoices | sdks/typescript/src/client.ts:2952-2974 | after hydrating the choices are those of the agent's mode option; without one to choose from the modes stay as they were |
| ModeSync.UnsetModeOptionParts | sdks/typescript/src/client.ts:2970-2973 | where the agent's mode option has no value, hydrating parts the views: the modes take its first choice, the option keeps no value |
| ModeSync.SetConfigOptionKeepsAgreement | sdks/typescript/src/client.ts:1449-1484 | set_config_option, with no reply or one that echoes the change, keeps agreement and changes only the named option; that option shows its new value, and if it is the mode option both views do; otherwise the modes stay as they were |
| ModeSync.ViewsAlwaysAgree | sdks/typescript/src/client.ts:1441-1511 | over every interleaving of the three operations, stale reads included, no stored version shows two different modes |
| Replay.BuildReplayText | sdks/typescript/src/client.ts:2698-2722 | prefix, longest fitting prefix of the lines, and the marker iff a line is left out; at most 20 characters over max(maxChars, prefix) |
| Replay.LongestFitIsUnique | sdks/typescript/src/client.ts:2706-2719 | that text is determined by the lines and the budget |
| Replay.LinesFollowTheEvents | sdks/typescript/src/client.ts:2706-2719 | line i of the text renders event i |
| Replay.PrepareReplay | sdks/typescript/src/client.ts:1186-1187 | a restore tells the last maxEvents events in index order: the prefix, then the rendering of each event and a line end, as many events as fit, and the marker if and only if one is left out |
| DuplicateWindow.ResponseFilter.Accept | sdks/acp-http-client/src/index.ts:537-555 | the set is the contents of the duplicate-free queue of at most 2048 ids, and the answer is that of the plain scan of the last 2048 accepted ids |
| DuplicateWindow.FilterIdIs | sdks/acp-http-client/src/index.ts:662-678 | the filter concerns itself with every response whose id is not empty, under that id, and with nothing else |
| DuplicateWindow.RedeliverySpacing | sdks/acp-http-client/src/index.ts:542-555 | between two delivered responses to one request, at least 2048 other requests have delivered responses; a response is an object with a result or an error, without a method, with that id |
| DuplicateWindow.DroppedIffAnsweredLately | sdks/acp-http-client/src/index.ts:537-555 | a response is dropped if and only if one to the same request was let through and fewer than 2048 responses have been let through since |
| DuplicateWindow.WindowIsDuplicateFree | sdks/acp-http-client/src/index.ts:544-548 | a history let through by the window never repeats an id inside it |
| DuplicateWindow.HistoryIsDeliveredIds | sdks/acp-http-client/src/index.ts:547-548 | what the filter remembers is the list of delivered response ids |
| DuplicateWindow.DeliveryOrder | sdks/acp-http-client/src/index.ts:662-678 | deliveries are a subsequence of arrivals; whatever has a method, or no result and no error, or no id, or an empty one, comes out whole and in order |
| DuplicateWindow.FreshResponsesPass | sdks/acp-http-client/src/index.ts:537-564 | without repeated ids everything is delivered |
| SseText.SplitIsLeftmost | sdks/acp-http-client/src/index.ts:478-484 | splitting loses nothing and takes each event at its leftmost blank line |
| SseText.LeftmostCutIsUnique | sdks/acp-http-client/src/index.ts:478-484 | there is no other such split |
| SseText.SplitAppend | sdks/acp-http-client/src/index.ts:476-484 | splitting can go on from the unfinished rest when more text arrives |
| SseText.StreamReader.Feed | sdks/acp-http-client/src/index.ts:464-489 | after every read the processed events and the buffer are the split of all text so far |
| SseText.NormaliseAppend | sdks/acp-http-client/src/index.ts:476 | normalising two reads apart costs one character exactly when the cut tears a CRLF pair |
| SseText.NormaliseReplacesPairs | sdks/acp-http-client/src/index.ts:476 | each CRLF pair becomes a line feed, and nothing else changes |
| SseText.ReadsDoNotMatter | sdks/acp-http-client/src/index.ts:470-485 | for every way of cutting into reads: the result is the split of the whole stream if and only if no CRLF pair is torn |
| SseText.TornCrlfHidesAnEvent | sdks/acp-http-client/src/index.ts:476 | a torn pair can hide the end of an event |
| SseEvents.ProcessSseEvent | sdks/acp-http-client/src/index.ts:491-535 | the id and the payload of one event, by the last name, the last id and all data lines |
| SseEvents.ParseProcessLogSseChunk | sdks/typescript/src/client.ts:3222-3255 | the same for process-log entries |
| SseEvents.ProcessEvents | sdks/acp-http-client/src/index.ts:479-484 | a list of events yields its payloads in order and the last non-empty id |
| SseEvents.FieldReadsBack | sdks/acp-http-client/src/index.ts:500-518 | each line is taken for what it is, with or without white space behind the colon; other fields are skipped |
| SseEvents.BlockReadsBack | sdks/acp-http-client/src/index.ts:500-531 | a printed event, with its lines in any order, any white space around their values, comments and lines of other fields, is read as what it carries |
| SseEvents.PrintSplits | sdks/acp-http-client/src/index.ts:478-484 | the splitter takes a printed stream apart into the printed events |
| SseEvents.PrintedEventsReadBack | sdks/acp-http-client/src/index.ts:464-535 | any printed list of events, with LF or untorn CRLF, cut into any reads, yields its payloads in order, its last id and an empty buffer |
| Transport.EveryRunIsOrderly | sdks/acp-http-client/src/index.ts:305-462 | in every run: nothing sent or delivered once shut, the stream ends once at most, no GET or DELETE without an accepted write, one DELETE at most, the bootstrap query exactly with the first POST, reconnects present the last id, one loop at most |
| Transport.ClosedIsFinal | sdks/acp-http-client/src/index.ts:314-319 | `closed` never reverts |
| Transport.ProtocolIsOrderly | sdks/acp-http-client/src/index.ts:362-378 | the running facts kept of a history mean what they say of its observations |
| Transport.WritesArePostedAndStreamsEnd | sdks/acp-http-client/src/index.ts:314-378 | in every run each accepted write is posted, and a closed transport's stream has ended unless a DELETE is under way |
| Transport.WritesStartTheLoopIff | sdks/acp-http-client/src/index.ts:374-377 | a write to an open transport is accepted and posted, closing then sends a DELETE, and a loop is running after it if and only if it met no loop that had returned uncleared |
| Transport.WriteMeetsAReturnedLoop | sdks/acp-http-client/src/index.ts:411-419 | the run in which it does: an open transport with no loop and only one GET |
| Transport.PostsAreTheWrites | sdks/acp-http-client/src/index.ts:362-378 | in every run there is one POST for each write that found the transport open and the observer content, and no other |
| Transport.ArrivalsAreIncoming | sdks/acp-http-client/src/index.ts:380-564 | in every run, what came in is exactly, in order, the replies to outstanding POSTs and the payloads of reads of the loop that is reading, up to the shutting; and what was delivered is exactly those that pass the scan and on which nobody throws |
| Transport.ShutsIff | sdks/acp-http-client/src/index.ts:287-584 | in every run the transport has shut if and only if it was closed or its stream cancelled, a POST failed or its reply made somebody throw, or the stream refused a payload of a read |
| Transport.PostShutsIffItFails | sdks/acp-http-client/src/index.ts:380-409 | the end of a POST shuts an open transport if and only if it failed or its reply made somebody throw, and then the consumer sees an error |
| Transport.EndedStreamIsAskedForAgain | sdks/acp-http-client/src/index.ts:433-461 | a stream that ends while the transport is open is asked for again after the delay, whatever happens meanwhile short of shutting, with the last id seen, and read when the server answers |
| Transport.BrokenStreamWaitsForAWrite | sdks/acp-http-client/src/index.ts:411-461 | a stream that cannot be had or breaks off leaves the transport open, and the next write asks for it again with the last id seen |
| Transport.ShutLoopsEnd | sdks/acp-http-client/src/index.ts:421-461 | a loop that resumes in a transport that has shut ends |
| Transport.ClosingTellsTheServer | sdks/acp-http-client/src/index.ts:287-337 | closing or cancelling an open transport shuts it, sends a DELETE if and only if something was posted, and otherwise ends the stream at once, without an error |
| Transport.StreamEndsWithTheDelete | sdks/acp-http-client/src/index.ts:338-359 | however the DELETE ends, the stream has ended after it, without an error |
| Transport.LetThroughIsFiltered | sdks/acp-http-client/src/index.ts:537-564 | in every run, over POST replies and stream events together, what is let through is the plain scan's selection of all arrivals, in order, with every envelope that is no response |
| Transport.RunRedeliverySpacing | sdks/acp-http-client/src/index.ts:537-584 | in every run, over POST replies and stream events together, between two responses to one request that are let through at least 2048 other requests have responses let through |
| Transport.AdmittedIsDelivered | sdks/acp-http-client/src/index.ts:557-563 | in a run all that is let through is delivered, if and only if no arrival that reached the open transport and passed the window met an observer or stream that throws |
| Transport.SwallowedResponseIsLost | sdks/acp-http-client/src/index.ts:520-557 | from any open, reading state: a response on which the observer throws is dropped when it is sent again on the stream that the next write brings back, and its event id is the last one seen |
| TransportClass.StreamableHttpAcpTransport.Close | sdks/acp-http-client/src/index.ts:305-360 | closes once; ends the stream at once when nothing was posted, otherwise after the DELETE |
| TransportClass.StreamableHttpAcpTransport.DeleteSettled | sdks/acp-http-client/src/index.ts:349-359 | the stream ends after the DELETE, whatever its outcome |
| TransportClass.StreamableHttpAcpTransport.CancelReadable | sdks/acp-http-client/src/index.ts:287-289 | cancelling the stream closes the transport |
| TransportClass.StreamableHttpAcpTransport.WriteMessage | sdks/acp-http-client/src/index.ts:362-378 | refuses after closing; otherwise starts the loop if there is none and posts |
| TransportClass.StreamableHttpAcpTransport.PostSettled | sdks/acp-http-client/src/index.ts:380-409 | a reply is delivered through the filter; a failure, or an observer that throws, fails the stream |
| TransportClass.StreamableHttpAcpTransport.EnsureSseLoop | sdks/acp-http-client/src/index.ts:411-419 | starts a loop only when there is none, something was posted and the transport is open |
| TransportClass.StreamableHttpAcpTransport.LoopTop | sdks/acp-http-client/src/index.ts:421-438 | a closed transport asks for no stream |
| TransportClass.StreamableHttpAcpTransport.ProcessItems | sdks/acp-http-client/src/index.ts:478-484 | the events of one read are handled in order until one throws |
| TransportClass.StreamableHttpAcpTransport.ReadSettled | sdks/acp-http-client/src/index.ts:470-485 | after the events of a read the loop goes on unless the transport closed or an event threw |
| Inbound.ConsumeRead | sdks/acp-http-client/src/index.ts:470-485 | the text of a read, through buffer, splitter and field parser, takes the transport to its state after the events that the read completed |
| Inbound.PrintedStreamIsDelivered | sdks/acp-http-client/src/index.ts:464-564 | in any run, a stream whose text so far ends at an event boundary goes on with any printed list of events, in any untorn reads between writes and replies: it is still read, its buffer is empty, all payloads have come in with it, in order, the last id is kept, and the consumer gets what the scan of the last 2048 ids lets through, all of it when no id repeats |
| Inbound.EveryStreamIsItsText | sdks/acp-http-client/src/index.ts:464-489 | in every run, with reads between any other actions, what came in with a stream is what the events of all its text carry, in order, while it is read and the transport is open; otherwise a beginning of that |
| Inbound.GentleRunGoesOn | sdks/acp-http-client/src/index.ts:470-485 | from whatever the buffer holds, a stream goes on being read among writes and replies as long as its payloads are JSON, and keeps the last event id |
| Inbound.LeftoverJoinsTheNextEvent | sdks/acp-http-client/src/index.ts:467-481 | what is left in the buffer stands in front of the next event |
| TransportClass.StreamableHttpAcpTransport.ResumeLoop | sdks/acp-http-client/src/index.ts:433-461 | the loop's other suspensions: response, end of stream, failure, delay and the final clean-up |
| TransportClass.StreamableHttpAcpTransport.PushInbound | sdks/acp-http-client/src/index.ts:537-564 | filter, observer and stream, in that order, with their failures |
| TransportClass.StreamableHttpAcpTransport.FailReadable | sdks/acp-http-client/src/index.ts:566-584 | errors the stream once |
| SessionStore.InMemorySessionPersistDriver.constructor | sdks/typescript/src/types.ts:201-204 | caps default to 1024 sessions and 500 events |
| SessionStore.NormalizeCap | sdks/typescript/src/types.ts:310-315 | a finite cap of at least 1 is used, rounded down; any other gives the default |
| SessionStore.InMemorySessionPersistDriver.UpdateSession | sdks/typescript/src/types.ts:225-251 | the records are those of before and the one written, as many as the cap allows, and what is evicted, with its events, is older by (createdAt, id) than all that stays; as long as createdAt is never changed, the newest sessions ever written are held |
| SessionStore.InMemorySessionPersistDriver.RemoveOldest | sdks/typescript/src/types.ts:236-250 | the overflow is the session with the least (createdAt, id), gone from both maps |
| SessionStore.InMemorySessionPersistDriver.InsertEvent | sdks/typescript/src/types.ts:267-276 | appends and trims from the front, for sessions that do not exist too |
| SessionStore.InMemorySessionPersistDriver.ListEvents | sdks/typescript/src/types.ts:253-265 | one page of the events in (eventIndex, id) order |
| SessionStore.InMemorySessionPersistDriver.ListSessions | sdks/typescript/src/types.ts:211-223 | one page of all sessions in (createdAt, id) order |
| Order.SortSorts | sdks/typescript/src/types.ts:212-217 | sorting gives an ordered permutation |
| SessionStore.KeysOrder | sdks/typescript/src/types.ts:212-260 | sessions are sorted by createdAt upwards, events by eventIndex upwards, both by id where those are equal |
| Order.RetainKeepsTop | sdks/typescript/src/types.ts:226-250 | one write keeps exactly the largest keys, also when an evicted id is written again |
| Order.RetentionOverWrites | sdks/typescript/src/types.ts:225-251 | after any list of writes exactly the maxSessions largest keys ever written are held |
| Order.TopIsUnique | sdks/typescript/src/types.ts:236-244 | that set is determined by the writes |
| SessionStore.CursorRoundTrip | sdks/typescript/src/types.ts:324-337 | a printed offset is read back as itself |
| SessionStore.CursorsAreReadLeniently | sdks/typescript/src/types.ts:328-337 | white space in front, a plus sign and whatever follows the digits of a cursor do not matter; a negative number, or no number, means the start |
| SessionStore.PageAdvances | sdks/typescript/src/types.ts:317-326 | a page has a cursor exactly when something is left, and it moves on by what the page held |
| SessionStore.PageIsFull | sdks/typescript/src/types.ts:317-326 | a page holds at most the limit, 100 by default, and exactly that many when something is left |
| SessionStore.FollowYieldsAll | sdks/typescript/src/types.ts:317-337 | following cursors ends and yields every item once, for every limit |
| SessionStore.PagedEventsAreComplete | sdks/typescript/src/types.ts:253-265 | paging sees each stored event once, by eventIndex upwards and by id where indexes are equal |
| SessionStore.FindMaxPersistedSessionEventIndex | sdks/typescript/src/client.ts:2215-2239 | the scan returns the true maximum of all stored indexes |
| SessionStore.CollectReplayEvents | sdks/typescript/src/client.ts:2241-2262 | the last min(n, maxEvents) events in order |
| SessionStore.MaxIndexBounds | sdks/typescript/src/client.ts:2226-2230 | the maximum bounds every index and is attained, or is 0 |
| SessionStore.TrimmingKeepsTheHighest | sdks/typescript/src/types.ts:271-273 | trimming keeps the highest-index suffix and the highest index |
| TopoSort.Sort | scripts/release/sdk.ts:151-168 | ends on every graph; a permutation for distinct names; every package after its dependencies if and only if there is no cycle |
| TopoSort.Sorter.Visit | scripts/release/sdk.ts:156-164 | keeps, at every depth of the search, visited = finished + on the stack, and dependencies before dependents unless there is a cycle |
| TopoSort.Sorter.VisitDependencies | scripts/release/sdk.ts:159-162 | the loop leaves every dependency that is a package visited |
| TopoSort.CyclesCannotBeOrdered | scripts/release/sdk.ts:148-150 | no order satisfies a cyclic graph |
| TopoSort.GrayDependencyIsACycle | scripts/release/sdk.ts:156-163 | a dependency still being visited closes a cycle |
| TopoSort.FindFinds | scripts/release/sdk.ts:152 | the name table answers for exactly the packages' names, with a package of that name |
| Subscriptions.ListenersAreTheSubscribers | foundry/packages/client/src/backend-client.ts:683-732 | in every run a key has an entry iff some listener is subscribed, and its listeners are those whose last call for the key subscribed them |
| Subscriptions.SubscribersAreKeptApartIff | foundry/packages/client/src/backend-client.ts:716-732 | subscription by subscription, with openings and disposals in between: events reach everybody who has not ended theirs, and nobody else, throughout a run, if and only if each unsubscribe, repeated ones included, came when no other live subscription had its key and listener |
| Subscriptions.DroppedConnectionsAreDisposedOnce | foundry/packages/client/src/backend-client.ts:717-731 | no connection is disposed while it serves or twice; a dropped one is disposed exactly once if it opened |
| Subscriptions.CallbackDisposes | foundry/packages/client/src/backend-client.ts:771-785 | an attempt opens or fails as its first report says; once it has, the callback hung on a dropped one runs and disposes it exactly if it opened |
| Subscriptions.OneConnectionWhileSubscribed | foundry/packages/client/src/backend-client.ts:683-732 | a key with subscribers has one attempt, the latest; when all is settled it has one open connection iff it has subscribers and the attempt succeeded |
| Subscriptions.SandboxKeysAreDistinct | foundry/packages/client/src/backend-client.ts:734-736 | different sandboxes have different keys when organization and provider ids have no colon |
| Subscriptions.SandboxKeyIsUnsharedIff | foundry/packages/client/src/backend-client.ts:734-736 | a sandbox shares its key with no other if and only if none of its three ids has a colon |
| Subscriptions.AppIsATableWithOneKey | foundry/packages/client/src/backend-client.ts:788-820 | the application's permanent record behaves as a table used with one key, and holds a promise iff it has listeners |
| Subscriptions.SubscriptionTable.AddListener | foundry/packages/client/src/backend-client.ts:738-769 | joins the entry, or makes it and begins to connect |
| Subscriptions.SubscriptionTable.RemoveListener | foundry/packages/client/src/backend-client.ts:771-785 | leaves the entry; the last one to leave drops it and hangs a disposal on its promise |
| Subscriptions.SubscriptionTable.SettleOpening | foundry/packages/client/src/backend-client.ts:751-768 | an opening succeeds or fails, once |
| Subscriptions.SubscriptionTable.RunDisposal | foundry/packages/client/src/backend-client.ts:782-784 | a disposal does nothing after a failed opening |
| Subscriptions.AppSubscription.AddListener | foundry/packages/client/src/backend-client.ts:788-807 | the same for the application's record |
| Subscriptions.AppSubscription.RemoveListener | foundry/packages/client/src/backend-client.ts:809-819 | the same for leaving it; the record forgets its promise |
| Jsonc.StripJsoncComments | foundry/packages/cli/src/theme.ts:707-761 | the one-pass loop writes exactly the text of the tokens that are not comments |
| Jsonc.SkipLine | foundry/packages/cli/src/theme.ts:736-742 | a line comment ends before its line break |
| Jsonc.SkipBlock | foundry/packages/cli/src/theme.ts:744-754 | a block comment ends at its first close, or with the text |
| Jsonc.FirstIsTheOneThatFits | foundry/packages/cli/src/theme.ts:713-757 | the scanners read a token if and only if the grammar allows it in front of what follows |
| Jsonc.LexIsLossless | foundry/packages/cli/src/theme.ts:713-757 | every text is the printing of its tokens, and they are well formed |
| Jsonc.LexIsTheOnlyReading | foundry/packages/cli/src/theme.ts:713-757 | they are the only well-formed tokens that print as that text |
| Jsonc.StripDropsExactlyTheComments | foundry/packages/cli/src/theme.ts:707-761 | stripping a printed token list prints the list without its comments |
| Jsonc.StripKeepsEverythingElse | foundry/packages/cli/src/theme.ts:707-761 | for every input: literals and all other tokens survive verbatim and in order, stripping is idempotent, and the output equals the input iff there is no comment |
| Logfmt.EscapeIsPerCharacter | foundry/packages/shared/src/logging.ts:71 | the three replacements in turn equal a per-character escape |
| Logfmt.ValueReadsBack | foundry/packages/shared/src/logging.ts:61-72 | a printed value, quoted or bare, is read back as its text |
| Logfmt.FormatsItsText | foundry/packages/shared/src/logging.ts:35-72 | every kind of value prints as its text, as it is if the text is not empty and has no white space, equals sign, quote or backslash, and otherwise quoted with each character escaped by itself |
| Logfmt.OnlyUndefinedIsLeftOut | foundry/packages/shared/src/logging.ts:74-79 | all fields but the undefined ones are printed, in the record's order |
| Logfmt.LineReadsBackIff | foundry/packages/shared/src/logging.ts:74-79 | a parser recovers all keys and value texts of a record from its line if and only if no printed key has an equals sign |
| Logfmt.LinesAreUnique | foundry/packages/shared/src/logging.ts:74-79 | two records print alike if and only if they have the same keys and texts in the same order, provided no key has an equals sign, or no key has a space |
| Logfmt.LinesAreUniqueIff | foundry/packages/shared/src/logging.ts:77 | whatever characters are kept out of keys, as long as an ordinary one is left: different records never print alike if and only if the equals sign or the space is kept out |
| Logfmt.SuchKeysCollide | foundry/packages/shared/src/logging.ts:77-78 | any key that looks like a printed field, a space and more makes its record print like one with two fields |
| Logfmt.ALineIsOneLine | foundry/packages/shared/src/logging.ts:71-79 | a line has a line feed if and only if a printed key has one; other characters that are no markup, carriage return and U+2028 included, are in the line if and only if a printed key or value has them |

## Left out

- HTTP, JSON encoding, timers, abort signals and UTF-8 decoding: a response, a parsed value or an elapsed delay is an action or a parameter; strings are sequences of UTF-16 code units.
- Session and event ids in the store and the `localeCompare` order on them: an id is its position in a total order, so two ids that compare equal under `localeCompare` are not told apart from equal ids.
- Numbers: createdAt and eventIndex are integers; NaN and fractional indexes, and decimal texts beyond 2^53 in cursors, are not modelled.
- Following cursors: every page is asked for with the same limit and the store does not change meanwhile, as in both client loops.
- SessionLog.LaterClientContinuesAbove: does not model the eviction of the session between the two clients, which deletes its events and with them the memory of the indexes.
- SessionLog.LogIsInArrivalOrder: does not model a store that keeps an event and still reports a failure, or a second client writing to the same session at the same time.
- The seed scan reads the store in one step, because no insert of the same client can be under way for that session before the scan is over.
- DuplicateWindow.RedeliverySpacing: does not model an observer that throws; `Transport.RunRedeliverySpacing` covers it.
- Random ids: permission requests, connections and connection attempts are numbered in the order in which they are made, so they never collide.
- Inbound.EveryStreamIsItsText: does not model an envelope that comes twice in one read and is refused by an observer only the second time; decoding of bytes that a read cuts apart is taken as done.
- Observers that call back into the transport, and permission listeners that add or remove listeners while they are called.
- Connections whose `close` rejects: a dispose is over when it has asked every connection to close.
- LiveConnections.WaitersShareTheOutcome: does not model a dispose; `LiveConnections.CallersGetWhatTheyWaitedFor` and `LiveConnections.LoserGivesTheWinner` cover the runs with one, step by step.
- LazyRestore.SendRestoresAtMostOnce: does not model another resume of the same session at the same time, nor a dispose that replaces the live connection; record and live connection are followed as values between the awaits of one send, not as objects.
- ModeSync.ViewsAlwaysAgree: does not model the inbound `config_option_update` and `current_mode_update` events, each of which updates one view only (`sdks/typescript/src/client.ts:2160-2184`); records are values, as the operations build a new record from the one they read.
- Creation of a session, `resumeOrCreateSession`, the session handles and the caches of agent information: they add no state that the modelled protocols share.
- Subscriptions.ListenersAreTheSubscribers: does not model connection errors after opening, which the source ignores, nor listeners that throw.
- The ordering of crates (`scripts/release/sdk.ts:188-205`) is the same search with another source of names, and is not repeated.
- REST wrappers, sandbox providers, the SQLite, Postgres and IndexedDB drivers, the other release scripts, the user interfaces and the theme lookup: request plumbing, databases and presentation.
