# Verified model of Dendrite's state machines

Dendrite is a Matrix homeserver written in Go. Most of it is request plumbing; this project models the
parts that carry an algorithm or a protocol and proves what they are for. Each module is one component:

- `FederationTxn`: an incoming federation transaction. Its event cache, the lookups that fill it, and the
  order in which a gap in a room's history is handed to the roomserver. Around it: `FederationWorld` (the
  roomserver and the remote servers), `GapFilling` (what closing a gap means, and every way to fail),
  `FederationLaws` (what the recursive functions in these contracts mean, by position and by element),
  `GapWitnesses` (concrete answers for the properties that fail), `FetchPool` (the worker pool that fetches
  missing state), `StateAfterEvent` and `FederationEvents`.
- `StateDeltas`, `JoinedHosts`: collapsing two state deltas into one, and the servers an event is sent to.
- `TypingCache`: the versioned index of typing users, with its expiry timers.
- `RateLimiter`, `RoomMutex`, `LogConsumer`, `PublicRoomsFanIn`: concurrent or crash-prone protocols.
- `RegistrationFlows`: the stages of an interactive registration and the session store behind them.
- `PublicRoomPaging`: the public room directory and its page tokens.

`dafny verify dfyconfig.toml` checks the whole project.

## How to read the model

**State machines.** Concurrent code is a `Step` datatype with one constructor per critical section, channel
operation or runtime event, a guard `Enabled`, and a function `Next`. `IsRun` is a finite run from the initial
state. Main results quantify over all runs, so over all interleavings. Objects that change in place are
classes whose methods are proved to perform exactly one step, or a function of the old state.

**The outside world.** `FederationWorld.Answers` holds one arbitrary function per kind of request, of the moment
and of what is asked; `World` has such a value as a constant and a clock. A contract that says what a result is
says which answer it came from, and so for what is cached: a lookup leaves the cache as the old one with the
answered events added (`GapFilling.CachedAll`) or grown by genuine events found for the IDs asked for
(`GapFilling.GrewBy`). `Window` is what a transaction was told between two moments; the predicates of
`GapFilling` relate results to it. Methods return the moments and caches that a predicate needs as ghost values.
Topological sorts are modelled by `FederationEvents.Order` and `FederationEvents.InAuthOrder`: each event once,
after what it refers to, and all events unless references are cyclic (or an auth event is absent). The ghost
fields `returned` and `found` record the events that the roomserver has returned and that walks over servers
have found; `World.Honest` ties both to the answers. It is part of the transaction's invariant, and so is that
the servers asked are the origin and those that the roomserver named (`TxnReq.Connected`). `looked` records
which IDs were looked up remotely. The signature check is the function `genuine`. Elsewhere clocks are an
abstract counter, and timers have the states armed, fired (callback waiting for the lock), finished and stopped.

**Where the code is followed rather than its comments.**

- `isProcessingErrorFatal` has no fallthrough: of the two errors it lists only `ErrTxDone` ends a transaction.
- `getServers` keeps the list found for the first room for the whole transaction.
- The fetch closure of the worker pool assigns an error variable shared by all workers. The model gives each
  fetch its own error.
- The `len(newEvents) == 0` branch of `processEventWithMissingState` cannot be taken, because
  `getMissingEvents` never succeeds with an empty list (`FederationTxn.TxnReq.GetMissingEvents`).

**Properties that fail as first stated, with the condition under which they hold.**

- `combineDeltas` yields the net effect of two deltas exactly when they fit the state they are applied to
  (`StateDeltas.Fits`, checkable per event ID before the call). Tidy deltas (every add new, every remove
  present) always fit. `StateDeltas.UntidyDeltasLoseAnAdd` is a failing input.
- The rate limit per caller holds if first requests do not overlap (`RateLimiter.CallerIsLimited`). Lookup and
  creation of a channel are separate critical sections, and from every state in which two first requests of a
  caller overlap the limit can be exceeded at once (`RateLimiter.OverlapBreaksLimit`, for every threshold and
  cooloff of at least 1). So the discipline can be relaxed nowhere.
- The callback of a fired timer can remove another timer's typing entry. `TypingCache.CallbackRemovesExactly`
  says which entry it removes, for every timer and run: the one that the latest write of that entry since the
  firing added, or without such a write the one that was there at the firing. Both ways happen:
  `TypingCache.StaleFiringRemovesFreshEntry`, and `TypingCache.EarlyFiringRemovesOlderEntry` for a timer that
  fires before it is stored. A user can stay typing for ever if the timer's callback comes before the timer is
  stored, and only then (`TypingCache.EarlyCallbackStrandsUser`, `TypingCache.IndexIsConsistent`).
- Callers that lock rooms in increasing order, in particular one at a time, cannot deadlock
  (`RoomMutex.SomeoneMoves`). Along every cycle of distinct rooms, each goroutine holding one and locking the
  next, they can (`RoomMutex.CyclesDeadlock`).
- The state sent with the oldest fetched event need not allow that event. There are exactly three exceptions
  (`GapFilling.OldestIsAllowed`), and each occurs: a missing auth event that the roomserver lacks and of which a
  server gave a badly signed copy, the roomserver's own state, which is used unchecked, and a create event
  (`GapWitnesses.BadSignaturePasses`, `GapWitnesses.OwnStateMayRefuse`, `GapWitnesses.CreationMayBeRefused`). For the first
  two the procedure itself is proved to take that course: `GapWitnesses.BadSignatureIsSent`, and
  `GapWitnesses.OwnStateIsSent` up to the delivery.
- The loop that fetches missing auth events for the resolved state need not end: `GapWitnesses.RepairNeedNotEnd`
  is unfinished after any number of rounds. The model watches the loop for any given number of rounds, and the error
  `Unfinished` stands for a loop that goes on: every state so far lacked an auth event that was then found.
- `retrieveMissingAuthEvents` panics if, for a missing auth event, the first server that neither fails nor sends
  unreadable JSON answers without PDUs, and only then (`FederationTxn.TxnReq.RetrieveMissingAuthEvents`). The model
  reports the error `Panicked`, which ends the transaction.
- `sliceInto` panics outside the exact range given by `PublicRoomPaging.SliceIntoDefined`.

## Model

| member | source | states |
|---|---|---|
| `StateDeltas.Combine` | federationsender/consumers/roomserver.go:309-325 | One pass removes from one set exactly the listed values and adds to the other exactly the listed values that were not cancelled, however often a value is listed. |
| `StateDeltas.CombineDeltas` | federationsender/consumers/roomserver.go:302-339 | For all inputs the two lists are duplicate-free and disjoint; for every state they are its net adds and net removes if and only if the deltas fit that state. |
| `StateDeltas.FitsIffNet` | federationsender/consumers/roomserver.go:305-339 | What the four passes leave is the net delta of a state exactly when each event ID is used in a fitting way. |
| `StateDeltas.TidyFits` | federationsender/consumers/roomserver.go:302-304 | Deltas whose adds are new and whose removes are present where they are applied always fit. |
| `StateDeltas.UntidyDeltasLoseAnAdd` | federationsender/consumers/roomserver.go:319-323 | Removing an absent event and adding it cancels to nothing although the state gained the event. |
| `JoinedHosts.JoinedHostsFromEvents` | federationsender/consumers/roomserver.go:275-300 | Fails exactly on a malformed member event; otherwise lists exactly the joins among the events. |
| `JoinedHosts.MissingEventsFrom` | federationsender/consumers/roomserver.go:395-407 | The required IDs that no event carries, in order. |
| `JoinedHosts.WithoutInTurn` | federationsender/consumers/roomserver.go:401-405 | The list of missing IDs is made ID by ID, each kept exactly if it is not had, in the original order. |
| `JoinedHosts.LookupStateEvents` | federationsender/consumers/roomserver.go:341-393 | On success holds the true event for every wanted ID and nothing else, through every fast path; fails exactly if the roomserver, asked for the wanted IDs other than the event's own, failed or left one out, and is not asked if there are none. |
| `JoinedHosts.JoinsSplit` | federationsender/consumers/roomserver.go:234-255 | The joins of the state before the event are the old joins that survive the combined removes plus the joins among the combined adds. |
| `JoinedHosts.JoinedHostsAtEvent` | federationsender/consumers/roomserver.go:205-273 | The destinations are, without duplicates, exactly the servers with a join in the state before the event plus the peeking servers; every cause of failure is named. |
| `FetchPool.EveryScheduleIsSound` | federationapi/routing/send.go:1090-1148 | For every interleaving and every network answer: the cache grew only by events that came back from lookups of missing IDs with a good signature, each under its own ID and marked new; each missing ID is looked up exactly once; and when all workers are done a good answer to any lookup is in the cache. |
| `FetchPool.PlayKeepsInv` | federationapi/routing/send.go:1113-1139 | The pool's invariant holds after any schedule, and no schedule is longer than the work there was. |
| `FetchPool.Fetch` | federationapi/routing/send.go:1103-1147 | Running the pool to its end looks up the whole queue in order, and every lookup is settled: answered, and cached if the answer was good. |
| `FederationTxn.TxnReq.HaveEventIDs` | federationapi/routing/send.go:343-354 | Names exactly the cached events not marked new, all of which the roomserver has returned itself. |
| `FederationTxn.TxnReq.CacheAndReturn` | federationapi/routing/send.go:808-814 | The first event cached under an ID stays and is what callers get; the cache invariant is kept. |
| `FederationTxn.TxnReq.GetServers` | federationapi/routing/send.go:482-498 | The list is the origin followed by the servers that the roomserver named when first asked, and stays so for the whole transaction. |
| `FederationTxn.TxnReq.AskForEvent` | federationapi/routing/send.go:1194-1214 | The origin and the room's servers are asked in order; the outcome is the walk of `FederationLaws.WalkFindsFirst`, and exactly the event found is recorded as found. |
| `FederationLaws.WalkFindsFirst` | federationapi/routing/send.go:1197-1210 | A walk over servers comes to the event that the first server with a readable one gave, and to nothing if and only if no server has one. |
| `FederationLaws.WalkStopsAtFirst` | federationapi/routing/send.go:569-591 | A walk for an auth event stops at the first server that gives a readable event or no PDU at all, and fails if and only if there is none. |
| `FederationLaws.FirstTellerIsBelieved` | federationapi/routing/send.go:942-967 | For the events before an event the first server that answers is believed, and there is no answer if and only if all failed. |
| `FederationTxn.TxnReq.LookupEvent` | federationapi/routing/send.go:1181-1224 | The outcome for every answer: a single local event if asked for first, else the first remote answer if its signature is good; exactly a success marks the event new. |
| `FederationTxn.TxnReq.LocalAuthEvents` | federationapi/routing/send.go:835-865 | The auth events of a state are exactly, in order, those cached as its events name them, followed by what the roomserver answers when asked for all others, which is cached; it fails only if that query fails. |
| `FederationLaws.AuthsInTurn` | federationapi/routing/send.go:835-851 | The cached auth events of a state are those of its events in turn, each event's list restricted to the cache. |
| `FederationTxn.TxnReq.LookupStateAfterEventLocally` | federationapi/routing/send.go:816-871 | A local snapshot is the events that the roomserver answered with for this event, in order, each as first cached, with its auth events; the cache has grown by exactly the answers; None exactly when one of the two queries failed. |
| `FederationTxn.TxnReq.WorkOutMissing` | federationapi/routing/send.go:1032-1060 | The roomserver is asked for exactly the uncached wanted IDs, once each in order; exactly the answered events are added to the cache, and exactly the wanted IDs still outside it count as missing. |
| `FederationLaws.UnseenByPosition` | federationapi/routing/send.go:1032-1047 | The IDs asked for are those at the first position of each wanted ID that is not cached, in order. |
| `FederationLaws.FirstCachedStays` | federationapi/routing/send.go:808-814 | After caching a list, an ID that was cached keeps its event, any other listed ID has the first event listed under it, and nothing else is cached. |
| `FederationTxn.TxnReq.FetchMissing` | federationapi/routing/send.go:1090-1148 | At most eight workers look up each missing ID exactly once; the cache grows only by genuine events that servers gave for those IDs, and an ID is still missing afterwards only if no server gave a genuine event with that ID. |
| `FederationTxn.TxnReq.CreateRespStateFromStateIDs` | federationapi/routing/send.go:1154-1179 | Both lists are the /state_ids lists restricted to the cache (`FederationLaws.RestrictByPosition`), each from its own list. |
| `FederationLaws.RestrictByPosition` | federationapi/routing/send.go:1159-1174 | A list restricted to the cache has, in order, the cached event for exactly the positions whose ID is cached; a missing ID drops nothing else. |
| `FederationTxn.TxnReq.LookupMissingStateViaStateIDs` | federationapi/routing/send.go:1024-1152 | From the answer to /state_ids for this event: each ID still missing after the roomserver query is looked up exactly once and no other, at most max(8, half the wanted IDs) of them; /state is used instead exactly when more are missing; otherwise the result is the answered lists without the IDs for which no server gave a genuine event. What was cached meanwhile is exactly the roomserver's answer and genuine events found for the missing IDs. |
| `FederationLaws.PlanIsExact` | federationapi/routing/send.go:1062-1088 | /state is used exactly if more than eight events are missing and more than half of those wanted; otherwise exactly the missing ones are collected. |
| `FederationLaws.PlanFails` | federationapi/routing/send.go:1024-1052 | Without an answer to /state_ids or to the roomserver query the lookup fails with that error. |
| `StateAfterEvent.AddToState` | federationapi/routing/send.go:790-803 | The loop replaces the first event with the same type and state key or appends; other events leave the list alone. |
| `StateAfterEvent.WithEventByPosition` | federationapi/routing/send.go:790-803 | The first event with the same type and state key is replaced in its place; without one the event goes last. |
| `StateAfterEvent.UpdatesOneKey` | federationapi/routing/send.go:790-803 | The new state, read by type and state key, differs from the old one at the event's key only. |
| `StateAfterEvent.AtIsFirst` | federationapi/routing/send.go:790-803 | Reading a state by type and state key gives the first listed event that has them. |
| `StateAfterEvent.KeepsOnePerKey` | federationapi/routing/send.go:790-803 | The list has one event per key afterwards if and only if it had before. |
| `FederationTxn.TxnReq.LookupStateAfterEvent` | federationapi/routing/send.go:765-806 | The roomserver's own state if it has one; otherwise the state before this event with the event that a server gave for it put in at its key, unchanged for a non-state event or a bad signature; it fails only if the roomserver has no state and the state before, or the event, could not be had. |
| `FederationLaws.AfterByKey` | federationapi/routing/send.go:781-804 | The state after an event has it at its own key and everything else as before; only a state event makes a difference. |
| `FederationTxn.TxnReq.StatesAfter` | federationapi/routing/send.go:671-684 | The i-th state is the state after the i-th prev_event; on failure all earlier ones were had and this one could not be. |
| `FederationTxn.TxnReq.ResolveStatesAndCheck` | federationapi/routing/send.go:882-921 | The result has the auth events of all states in order, and the library's resolution of all states in order followed by auth events that were looked up, first in the roomserver, because the check of the state so far missed them; it passes the check, or lacks an auth event that the roomserver lacks and whose copy has a bad signature; every failure is explained, and a loop that goes on is told apart from a failure. |
| `FederationLaws.StatesInTurn` | federationapi/routing/send.go:882-890 | What is resolved are the events of all collected states in turn, auth events and state events apart. |
| `FederationTxn.TxnReq.LookupAuthEvent` | federationapi/routing/send.go:897-909 | A missing auth event is the roomserver's if it has it; only otherwise is it a genuine one of a server, a bad signature, or lost. |
| `FederationTxn.TxnReq.RepairState` | federationapi/routing/send.go:893-916 | For any number of rounds: the loop appends exactly the events that the check reports missing, in turn, and stops at the first state that is allowed, refused or cannot be completed; otherwise it goes on. |
| `GapFilling.OldestIsAllowed` | federationapi/routing/send.go:692-726 | The state sent with the oldest fetched event allows it, except for a missing auth event that the roomserver lacks and a server gave badly signed, the roomserver's own unchecked state, and a create event. |
| `GapWitnesses.OwnStateMayRefuse` | federationapi/routing/send.go:705-708 | Answers under which the roomserver's own state is sent with an event that it refuses. |
| `GapWitnesses.OwnStateIsSent` | federationapi/routing/send.go:621-763 | In these answers the whole procedure succeeds and delivers the refused event with that state, followed by the pushed event. |
| `GapWitnesses.CreationMayBeRefused` | federationapi/routing/send.go:694-701 | Answers under which a create event is sent although the check refuses it. |
| `GapWitnesses.BadSignaturePasses` | federationapi/routing/send.go:897-904 | Answers under which a gap is closed with a state that lacks an auth event, because the roomserver lacks it and the copy found is badly signed. |
| `GapWitnesses.BadSignatureIsSent` | federationapi/routing/send.go:882-904 | In these answers the resolution returns that state, however often it may retry. |
| `GapWitnesses.RepairNeedNotEnd` | federationapi/routing/send.go:894-912 | A run of the resolution that is unfinished after any number of rounds, because the roomserver keeps supplying the event that the check keeps missing. |
| `FederationTxn.TxnReq.ResolvedState` | federationapi/routing/send.go:692-726 | No states only at the room's creation; one trustworthy state is used as it is; anything else is resolved, from the resolution that was answered. |
| `FederationTxn.TxnReq.GetMissingEvents` | federationapi/routing/send.go:923-1009 | Success yields the events of the first answer to the question for what precedes the pushed event, each once and after listed events it names as prev, with one of the pushed event's prev_events among them; an acyclic answer is refused only if it holds none of them. |
| `FederationWorld.World.SendEventWithState` | roomserver/api/wrapper.go:44-82 | The outliers are the state and auth events minus those already had, one per ID and each after its auth events, followed by the event with its state; nothing is sent only if that order does not exist. |
| `FederationTxn.TxnReq.ProcessEventWithMissingState` | federationapi/routing/send.go:621-763 | On success the roomserver was given, in this order, the outliers it lacked, the oldest answered event with the state made from the states after its prev_events, the other answered events and the pushed event. A failure has one of nine causes in what was answered, and the roomserver was then given nothing, unless it refused a batch itself: then a part of the first batch, or all of it and a part of the second. |
| `GapFilling.GapFilledInOrder` | federationapi/routing/send.go:728-760 | In that delivery only the oldest fetched event has state, and it is the IDs of the state made for it; every fetched event follows all fetched events it names as prev, and the pushed event is last. |
| `FederationTxn.TxnReq.RetrieveMissingAuthEvents` | federationapi/routing/send.go:560-608 | Success means that every distinct missing auth event was found at a server and sent as an outlier, once; a failure means that one was found nowhere, or was refused by the roomserver, or that a server answered without PDUs, which panics, and only auth events found before were sent. |
| `FederationTxn.TxnReq.ProcessEvent` | federationapi/routing/send.go:500-558 | On success the roomserver was given the auth events it lacked and then the event, alone if it lacked no prev_event and otherwise at the end of a closed gap. A failure has a cause in what was answered, which also tells what the roomserver was given in vain: nothing if it could not be asked or has no such room, auth events only if one could not be had, and otherwise the auth events and no more than a refused batch. |
| `FederationLaws.AloneIsNew` | federationapi/routing/send.go:545-557 | An event without a gap is given alone, as new and without state. |
| `FederationTxn.TxnReq.ProcessTransaction` | federationapi/routing/send.go:247-321 | Every PDU's outcome is what the answers call for; the results hold exactly the IDs of the PDUs, each with the outcome of the last PDU that has it, rejected ones like accepted ones and without a fatal one; the roomserver was given what each PDU called for, or in vain, PDU by PDU in turn, and took the accepted ones; `ErrTxDone` ends the transaction and `ErrConnDone` does not; the cache invariant holds throughout. |
| `FederationLaws.BatchesInTurn` | federationapi/routing/send.go:247-321 | What the roomserver was given in all is the batches of the PDUs one after the other. |
| `TypingCache.IndexIsConsistent` | eduserver/cache/cache.go:100-171 | In every reachable state room positions lie in 1..latest and are unshared, an armed registered timer sits in its own slot, and a stored timer belongs to its slot and is spent exactly if it ran before it was stored. |
| `TypingCache.IncrementalRead` | eduserver/cache/cache.go:77-94 | With the position of any earlier moment, an update is reported if and only if the room was written since; without one the typing set is what it was. |
| `TypingCache.WritesMovePosition` | eduserver/cache/cache.go:121-171 | A write gives its room a fresh latest position; every other step leaves the room's data alone. |
| `TypingCache.FiringTimerOwnsItsSlot` | eduserver/cache/cache.go:132-143 | A registered timer that fires is still the stored one at that moment. |
| `TypingCache.EntryLastsUntilWritten` | eduserver/cache/cache.go:121-171 | In every run a stored timer is still the one of its room and user if and only if no step since wrote that entry. |
| `TypingCache.CallbackRemovesExactly` | eduserver/cache/cache.go:104-111 | For every fired timer, stored or not, and every timer: its callback removes that timer's entry if and only if the latest write since the firing added it, or nobody wrote since and it was there at the firing. |
| `TypingCache.StaleExactly` | eduserver/cache/cache.go:132-141 | For a timer stored when it fired: the callback removes its own entry if and only if the entry was not written since, and another timer's if and only if the latest write since was an add. |
| `TypingCache.StaleFiringRemovesFreshEntry` | eduserver/cache/cache.go:132-141 | A run in which a firing that waits for the lock removes a fresh entry and stops its timer. |
| `TypingCache.EarlyFiringRemovesOlderEntry` | eduserver/cache/cache.go:104-111 | A run in which a timer fires before it is stored and its callback removes the entry of an older timer. |
| `TypingCache.EarlyCallbackStrandsUser` | eduserver/cache/cache.go:104-111 | A run in which a user stays typing and no timer can ever fire. |
| `TypingCache.EDUCache.AddUser` | eduserver/cache/cache.go:116-146 | Performs exactly the model's add step and returns the new latest position. |
| `TypingCache.EDUCache.RemoveUser` | eduserver/cache/cache.go:148-171 | Performs exactly the model's remove step; unknown rooms and users change nothing. |
| `TypingCache.EDUCache.RunCallback` | eduserver/cache/cache.go:105-110 | Performs exactly the model's callback step. |
| `TypingCache.EDUCache.AddTypingUser` | eduserver/cache/cache.go:96-114 | A past expiry changes nothing; otherwise the user joins the typing set, which then reads as updated, and the invariant is kept. |
| `TypingCache.EDUCache.GetTypingUsersIfUpdatedAfter` | eduserver/cache/cache.go:74-94 | Reports an update exactly when the room is newer, with exactly the typing users and no duplicates. |
| `TypingCache.EDUCache.GetTypingUsers` | eduserver/cache/cache.go:67-72 | Always the full typing set, because position 0 is never in use. |
| `RateLimiter.ChannelsAreSafe` | clientapi/routing/rate_limiting.go:35-108 | In every interleaving no send or close hits a closed channel, tokens equal outstanding drains and stay within the threshold, nobody can reach a closed channel, and a due drain never blocks. What each step does is stated by the five lemmas below. |
| `RateLimiter.TrySendDecides` | clientapi/routing/rate_limiting.go:90-107 | In every run a request that reaches its channel is answered: accepted, with one more token owed there, exactly if fewer than the threshold are owed; otherwise refused without any other change, because that many accepted requests of the same caller are undrained. |
| `RateLimiter.RequestGetsItsChannel` | clientapi/routing/rate_limiting.go:73-88 | A request finds the open channel of its caller, misses if there is none, and then makes an empty one; no other caller's channel changes. |
| `RateLimiter.DrainTakesOne` | clientapi/routing/rate_limiting.go:101-106 | A drain runs no earlier than one cooloff after its request and takes one token from that request's open channel, and from no other. |
| `RateLimiter.CleanDropsIdle` | clientapi/routing/rate_limiting.go:35-57 | Cleaning happens while no request is inside; exactly the callers that owe nothing are forgotten, and exactly their channels are closed. |
| `RateLimiter.EnterLeaveTick` | clientapi/routing/rate_limiting.go:61-66 | Requests enter and leave without any other change, and no request leaves unanswered. |
| `RateLimiter.CallerIsLimited` | clientapi/routing/rate_limiting.go:75-108 | For a caller whose first requests do not overlap, no window of one cooloff holds more accepted requests than the threshold, over any run. |
| `RateLimiter.OneChannelKept` | clientapi/routing/rate_limiting.go:75-88 | Such a caller's undrained tokens and waiting requests all belong to its current channel. |
| `RateLimiter.OverlapBreaksLimit` | clientapi/routing/rate_limiting.go:75-88 | From every state in which two first requests of a caller overlap, more than the threshold can be accepted at one instant. |
| `RateLimiter.OverlapExceedsLimit` | clientapi/routing/rate_limiting.go:75-88 | For every caller, and every threshold and cooloff of at least 1, such a state can be reached, with exactly one accepted request too many. |
| `RoomMutex.MutualExclusion` | internal/mutex.go:17-38 | In every interleaving a room is held by at most one goroutine, Unlock never panics, and the holder of the map mutex can always leave it. |
| `RoomMutex.LockTakesUnlockFrees` | internal/mutex.go:17-38 | In every run Lock returns holding the room it was called for, whose mutex was free, and Unlock returns without that room and with its mutex free; nobody else's rooms change. |
| `RoomMutex.MutexIsStable` | internal/mutex.go:19-23 | A room's mutex is never replaced once created. |
| `RoomMutex.SomeoneMoves` | internal/mutex.go:17-38 | Among callers that lock rooms in increasing order of any ranking, whoever waits, some goroutine can move other than by calling Lock. |
| `RoomMutex.CyclesDeadlock` | internal/mutex.go:24-27 | Along every cycle of distinct rooms, goroutines that hold one each and lock the next reach a state in which nothing can move. |
| `RoomMutex.RelockingDeadlocks` | internal/mutex.go:24-27 | A goroutine that locks a room it holds reaches a state in which nothing can move. |
| `RoomMutex.CrossLockingDeadlocks` | internal/mutex.go:24-27 | Two goroutines that lock any two rooms in opposite orders reach a state in which nothing can move. |
| `LogConsumer.StartOffsets` | internal/consumers.go:71-120 | Succeeds exactly when every listed or stored partition can be opened just after its last stored offset, or at the oldest message; otherwise nothing stays open. |
| `LogConsumer.LastStoredIsLast` | internal/consumers.go:88-93 | The offset used for a partition is the last one stored for it, and there is one exactly if one was stored. |
| `LogConsumer.FirstAfter` | internal/consumers.go:88-93 | Reopening one past a stored offset begins at the next message, also when offsets have gaps. |
| `LogConsumer.AtLeastOnceInOrder` | internal/consumers.go:122-139 | Over any crashes and restarts the positions of the messages processed in a partition begin at the first and go to the next or to the same again; the stored offset is that of the last saved message, never ahead and at most one message behind, and each crash repeats at most one message. |
| `LogConsumer.ConsumerGoesOn` | internal/consumers.go:122-139 | In every run the message processed is the first that is not saved; saving it stores its offset and the consumer reads on exactly if it was not told to shut down; a restart begins at the first that is not saved. |
| `PublicRoomsFanIn.FanInIsFaithful` | cmd/dendritejs/publicrooms.go:84-154 | In every interleaving nothing is sent on the closed channel, at most 200 rooms come back (and 200 if the loop ended at the limit), all from the servers asked, each server's rooms are an in-order prefix of its list, and the whole list if the loop ended on the closed channel. |
| `PublicRoomsFanIn.LoopEnds` | cmd/dendritejs/publicrooms.go:84-154 | In every run the loop takes rooms in channel order until it sees the limit, the closed and empty channel, the timeout or the client gone, each of which ends it; `done` is closed only then, and the channel only when all senders are out. |
| `PublicRoomsFanIn.SenderGoesThrough` | cmd/dendritejs/publicrooms.go:96-126 | In every run a sender with an answer sends its rooms one by one and is out at the end of its list, or earlier only if `done` is closed; one without an answer is out at once. |
| `PublicRoomsFanIn.NoSenderStaysBlocked` | cmd/dendritejs/publicrooms.go:110-118 | Once `done` is closed every sender with an answer can move, and each of its moves brings its end closer. |
| `RegistrationFlows.CheckFlows` | clientapi/routing/register.go:895-929 | True exactly when the required stages are included in the completed ones as multisets, for lists in any order. |
| `RegistrationFlows.MergeStep` | clientapi/routing/register.go:914-927 | One round of the greedy merge over sorted lists preserves the answer in both directions. |
| `RegistrationFlows.CheckFlowCompleted` | clientapi/routing/register.go:931-945 | True exactly when some allowed flow is included. |
| `RegistrationFlows.SessionsDict.AddCompletedSessionStage` | clientapi/routing/register.go:99-110 | Appends a stage to its session unless it is there; other sessions are untouched. |
| `RegistrationFlows.SessionsDict.HandleRegistrationFlow` | clientapi/routing/register.go:585-681 | What each reply tells, without the branches: which request gets which refusal, and that it changes nothing; which requests complete the stage they name, so that it is recorded; and that registration completes exactly when the session then covers an allowed flow. |
| `RegistrationFlows.HandledIsDetermined` | clientapi/routing/register.go:585-681 | These cases exclude each other: the request and the store determine the reply and the new store. |
| `RegistrationFlows.GateExactly` | clientapi/routing/register.go:606-674 | The branches that begin a request in the step machine refuse, let through or let complete exactly the requests that those replies tell of. |
| `RegistrationFlows.HandledIsServed` | clientapi/routing/register.go:729-752 | Serving a request without interruption is the beginning and end of it in the step machine: same sessions, and a registration exactly when the reply says so. |
| `RegistrationFlows.OnlyCompleteFlowsRegister` | clientapi/routing/register.go:729-752 | Over every trace of interleaved requests stages are duplicate-free and exactly those recorded for the session, and each registration belongs to a session whose recorded stages cover an allowed flow (one that repeats no stage). |
| `RegistrationFlows.StagesAreEarned` | clientapi/routing/register.go:610-663 | Over every trace a session has a stage if and only if an earlier step earned it: an admitted request of that session that names it, with a good captcha or a valid MAC where it takes one, or the recaptcha page or a password change. |
| `RegistrationFlows.EndRegistersExactly` | clientapi/routing/register.go:729-752 | The end of a request registers an account if and only if the session has by then earned every stage of an allowed flow that repeats none; nothing else changes. |
| `RegistrationFlows.WaitingWasAdmitted` | clientapi/routing/register.go:606-674 | Only a request that was not refused, and has not ended, can come to its end. |
| `RegistrationFlows.StagesOnlyGrow` | clientapi/routing/register.go:99-110 | A session's stages are never lost or reordered. |
| `PublicRoomPaging.TokenRoundTrip` | clientapi/routing/directory_public.go:101-127 | A "T"-prefixed token is stripped and parsed back to its position, for every 64-bit position. |
| `PublicRoomPaging.ParseIntReads` | clientapi/routing/directory_public.go:101-108 | A position is read from a numeral with or without a sign, as its value, exactly if that fits into 64 bits. |
| `PublicRoomPaging.ParseIntReadsNothingElse` | clientapi/routing/directory_public.go:101-108 | Nothing else is read as a position. |
| `PublicRoomPaging.NumeralRoundTrip` | clientapi/routing/directory_public.go:122-127 | A numeral without leading zeros is written back as it was read. |
| `PublicRoomPaging.TokensExactly` | clientapi/routing/directory_public.go:185-188 | A position may be given with or without the leading "T", and no position or a bare "T" is the start; tokens are written with it. |
| `PublicRoomPaging.SliceIntoDefined` | clientapi/routing/directory_public.go:202-224 | The exact positions and limits, with 64-bit wrap-around, for which slicing does not panic. |
| `PublicRoomPaging.SliceAt` | clientapi/routing/directory_public.go:192-224 | For a position in the list and a positive limit: the page, and the positions of its neighbours. |
| `PublicRoomPaging.SliceFromBelow` | clientapi/routing/directory_public.go:202-224 | A negative position that the limit lifts back gives the list from its start, with no position before. |
| `PublicRoomPaging.PageForExactly` | clientapi/routing/directory_public.go:95-132 | For every position in the filtered list: the rooms from there on, fifty without a limit, the tokens of the pages before and after, and the size of the whole list. |
| `PublicRoomPaging.PageForBad` | clientapi/routing/directory_public.go:101-108 | A request is bad exactly if what it gives after the "T" is not empty and not a number. |
| `PublicRoomPaging.FilterRooms` | clientapi/routing/directory_public.go:134-151 | The matching rooms in order, and every room for an empty search term. |
| `PublicRoomPaging.FilteredInTurn` | clientapi/routing/directory_public.go:142-148 | Filtering decides room by room and keeps the order. |
| `PublicRoomPaging.DedupeAndShuffle` | clientapi/routing/directory_public.go:265-281 | Every room ID of the input exactly once, under any shuffle. |
| `PublicRoomPaging.Directory.RefreshPublicRoomCache` | clientapi/routing/directory_public.go:226-257 | Every room ID of both sources exactly once, biggest room first; on failure the old list stays. |
| `PublicRoomPaging.Directory.PublicRooms` | clientapi/routing/directory_public.go:88-132 | The reply is the page of the list as it then is. A request from the start renews the list if the roomserver answers: every room ID of both sources exactly once, biggest room first; every other request leaves it alone. |
| `PublicRoomPaging.FollowNext` | clientapi/routing/directory_public.go:192-224 | A client that follows `next` over any list served by position gets the whole list once, in order, in finitely many pages that link back by `prev`. |
| `PublicRoomPaging.ConcatInTurn` | clientapi/routing/directory_public.go:192-224 | What a client has got is the chunks of its pages one after the other. |
| `PublicRoomPaging.FollowSearch` | clientapi/routing/directory_public.go:95-132 | Following `next` over an unchanged cache ends, yields the filtered list exactly once in order, and each `prev` token leads to the page before. |

## Left out

- HTTP routing, JSON decoding, metrics, logging, configuration and database tables: plumbing around the modelled logic.
- gomatrixserverlib (state resolution, auth rules, signatures, ID splitting): only what the code relies on is stated, as described above.
- Transaction prologue (send.go:190-245, parsing, room versions, server ACLs, signatures of pushed PDUs) and EDU handling: a filter in front of `ProcessTransaction` and a dispatch after it.
- FederationTxn.TxnReq.ResolveStatesAndCheck: runs the retry loop, which need not end, for a given number of rounds; when it would go on the model stops with the error `Unfinished`.
- FederationTxn.TxnReq.LookupMissingStateViaStateIDs: each worker's walk over the servers is one step, and writes to the shared cache are atomic because the code holds a mutex there; the answer to /state is the one that passed the library's check.
- FederationTxn.TxnReq.ProcessTransaction: of a batch that the roomserver refuses it may have been given any prefix; nothing is claimed about which.
- TypingCache.EDUCache.AddTypingUser: the time left before the expiry is a parameter; nothing is claimed about when timers fire.
- LogConsumer.AtLeastOnceInOrder: log retention (messages deleted before they are read) is not modelled.
- RateLimiter: a limiter that is switched off lets every request through and is not modelled.
- RegistrationFlows: user-name and password checks, application-service and guest registration, and account creation after a completed flow are branches around remote calls; whether the MAC and the captcha are valid is an input.
- RegistrationFlows.CheckFlows: sorting is a function that returns the sorted permutation, not an in-place sort.
- PublicRoomPaging.Directory.RefreshPublicRoomCache: does not state that equal-sized rooms keep their shuffled order, because that order is random.
- PublicRoomPaging.FollowSearch: the list is shorter than 2^63 - 2^15, beyond which position arithmetic wraps; lower-casing is an arbitrary function of strings; a negative limit is covered by `SliceIntoDefined` only.
- Client membership, profile, device, key and third-party-ID handlers, and the application-service worker: sequences of checks around remote calls, or state in storage that is not part of this model.
