# Conduit: verified models of the homeserver's core

Conduit is a Matrix homeserver that keeps everything in ordered byte-string tables. This project
models the parts of it whose correctness depends on several operations together, at the level of
the stored bytes where bytes matter, and proves what they promise.

- **Tables and keys** (`ByteStrings`, `Text`, `Utf8`, `KvTable`, `PairTable`). Rows are byte strings; keys
  join text parts with 0xff and end in big-endian counts. Iteration in either direction and prefix
  scans are proved to be ordered filters of the table.
- **Outgoing sending** (`SendingKeys`, `SendingMachine`, `SendingRows`, `SendingFlight`,
  `SendingBounds`, `SendingDelivery`, `SendingBackoff`, `SendingWoken`, `SendingTheorems`,
  `SendingRetries`, `SendingStranding`, `SendingWitnesses`, `SendingLoss`, `SendingService`). The
  queue of events for other servers, push gateways and application services is a state machine
  whose steps are single table writes, channel operations and changes of the handler's memory, so
  a run may interleave any callers with the handler and crash between any two writes. The class
  `SendingService.Service` works on the byte tables and carries, as ghost state, the run of the
  machine it has performed; every theorem about runs therefore speaks about it.
- **Search** (`SearchWords`, `Search`, `SearchPaging`, `SearchRoute`). The word index, the intersection by peeking
  cursors, the merge of several rooms and the pages a client gets by following `next_batch`.
- **Membership** (`Membership`, `MembershipIndex`). Six mirrored tables of joined, invited and left
  users, and the counts and server index that are updated by difference.
- **To-device messages** (`ToDevice`, `ToDeviceSync`, `ToDeviceInvariant`, `ToDeviceTheorems`). The
  queue of one device and its delivery over interleaved `/sync` requests.
- **Account data** (`AccountData`), **short ids with caches** (`Short`, `ShortService`), **prefix
  watchers** (`Watchers`), **the missing-events walk** (`MissingEvents`), **proxy rules** (`Proxy`).

Code that changes fields is a class whose methods are proved against functions of the old state;
concurrent code is a state machine and its theorems range over all runs. Ghost fields and ghost
results record what the code itself does not keep.

## Where the code does not do what one would expect

Each is stated with the exact condition under which it happens; most also with a witness.

- `rooms_joined` scans the user id without a separator. It lists exactly the user's rooms if and
  only if no joined user id strictly extends theirs (`MembershipIndex.RoomsJoinedIff`,
  `Membership.RoomsJoinedLeaks`).
- A search starts its backward scan at a key that lies below every entry of the room with short id
  2^64 - 1, and above every entry of any other room (`Search.ScanStart`).
- Following search pages stops with the page of the first result whose lookup fails; with limit
  zero it never stops (`SearchPaging.PagesComplete`, `SearchPaging.FailureHidesRest`,
  `SearchPaging.LimitZeroNeverEnds`).
- Queued rows can be stranded: nothing works for their destination until another row is queued to
  it or the process restarts. Outside the start this is so if and only if there is no message for
  the destination and its last transaction failed, or nothing was queued to it and the start found
  no active rows of it since the last crash (`SendingStranding.StrandedIff`,
  `SendingStranding.StrandedStays`). The handler has no timer, so the first case needs no crash
  (`SendingWitnesses.FailureStrands`); the second is a crash between queueing a row and marking it
  active (`SendingWitnesses.CrashStrands`).
- `cleanup_events` runs beside the handler. A row that is queued again while the handler is between
  the two writes that mark its key active, after a cleanup has removed the first of them, can be
  lost; in every reachable state a row just queued can be lost if and only if that is so
  (`SendingLoss.CanBeLostIff`). A caller is safe with rows to servers and push gateways, and with any
  PDU that was not queued to the appservice before or not cleaned up before
  (`SendingLoss.NoLossForCallers`, `SendingWitnesses.OrphanIsLost`). No present caller comes near
  it: nothing calls `cleanup_events`, and `append_pdu` queues a PDU to an appservice once.
- A message for a destination that failed has no effect before its waiting time is over; if it is
  the last one, the rows are then stranded, and otherwise they are not
  (`SendingStranding.LastMessageStrands`).
- A to-device event whose row is written only after a response was built whose `next_batch` is not
  below its count can be deleted unseen; every other event stays queued until its device received
  a response with it or was removed (`ToDeviceTheorems.AtLeastOnce`, `ToDeviceTheorems.LateEventCanBeLost`).
- `changes_since` with the token 2^64 - 1 wraps around in an optimised build and returns everything
  (`AccountData.ChangesExact`, `AccountData.LargestTokenReturnsAll`).
- The documentation says that an empty proxy include list means `*`. The code uses a different,
  less specific rule for it; the two agree for every exclude list that can be written down
  (`Proxy.EmptyIncludeIsStar`).

## Model

| member | source | states |
|---|---|---|
| KvTable.ScanPrefixIsFilter | src/database/abstraction/sqlite.rs:319-324 | a prefix scan, made of an ordered iteration cut off at the first other key, yields exactly the keys with the prefix, in order |
| KvTable.ScanFromIsFilter | src/database/abstraction/sqlite.rs:248-304 | a forward iteration from a key of a prefix, cut off at its end, yields exactly the prefix's keys from there on, in order |
| KvTable.ScanBackIsFilter | src/database/abstraction/sqlite.rs:248-304 | the same backwards: exactly the prefix's keys up to there, in reverse order |
| KvTable.IncrementCounts | src/utils/mod.rs:22-32 | a readable counter goes up by one unless it is at its largest value, from which it falls to zero; a missing or malformed one becomes eight bytes that read as one |
| ByteStrings.Be64Order | src/utils/mod.rs:22-48 | byte order of big-endian counts is numeric order, whatever bytes follow different counts |
| Utf8.TextIffUtf8 | src/utils/mod.rs:51-53 | bytes are accepted as text exactly when they are the shortest-form UTF-8 encoding of a sequence of Unicode scalar values |
| Text.TextHasNoSep | src/utils/mod.rs:51-53 | bytes that decode as UTF-8 never contain the separator 0xff |
| SendingKeys.RowRoundTrip | src/database/key_value/sending.rs:61-85 | storing a request and parsing its key and value gives back destination and event, even when the id contains 0xff, exactly for PDUs and non-empty EDUs |
| SendingKeys.ParseIsPrefixed | src/database/key_value/sending.rs:129-205 | whatever key parses lies under the prefix of the destination it parses to, and the rest of the key is its event |
| SendingKeys.ParseExact | src/database/key_value/sending.rs:129-205 | a row parses to a destination and an event exactly when its key is `+` id 0xff, `$` user 0xff pushkey 0xff, or server 0xff, then a suffix, and the event is the PDU named by the suffix for an empty value and an EDU otherwise |
| SendingKeys.PrefixIffParse | src/service/sending/mod.rs:54-77 | a key starts with a destination's prefix exactly when it parses to that destination |
| SendingKeys.ScanIsOwnRows | src/database/key_value/sending.rs:23-33 | scanning one destination's prefix reads its rows and no other destination's |
| SendingTheorems.NoLoss | src/service/sending/mod.rs:119-265 | in every run with any interleaving and any crashes, a row once queued is still queued or active, or a transaction to its destination that carried its event has succeeded since, or an appservice cleanup has removed it since; excepted is a row queued again half-way through marking its key active, after a cleanup removed the first half |
| SendingLoss.CanBeLostIff | src/database/key_value/sending.rs:99-111 | in every reachable state, some continuation of the run fails to account for the row just queued if and only if the row is excepted |
| SendingLoss.OrphansNeed | src/service/sending/mod.rs:430-450 | an excepted row goes to an appservice, and its key was queued before and cleaned up before |
| SendingLoss.NoLossForCallers | src/service/sending/mod.rs:371-450 | a row to a server or push gateway, and any row whose key was not queued before or not cleaned up before, is accounted for in every run |
| SendingTheorems.OrphansWereCleaned | src/database/key_value/sending.rs:48-59 | the exception needs an earlier cleanup of the same row |
| SendingWitnesses.OrphanIsLost | src/database/key_value/sending.rs:99-111 | for every appservice and PDU a run loses such a row: it is in no table, no transaction has succeeded and no cleanup came after it was queued |
| SendingTheorems.SingleFlight | src/service/sending/mod.rs:146-232 | in every reachable state a destination has at most one transaction, and none while the handler is at work on it; after the start it has one of the two exactly when its status is Running or Retrying, every active row belongs to a destination with a status, and the transaction under way carries it |
| SendingTheorems.FailureWasSending | src/service/sending/mod.rs:175-184 | a transaction that fails was running or retrying, so the arm that logs the contrary is dead |
| SendingTheorems.BoundedBatches | src/service/sending/mod.rs:129-169 | no run ever has more than thirty active rows for a destination or thirty PDUs in a transaction, so the startup loop never drops a row |
| SendingStranding.NoStrandedQueue | src/service/sending/mod.rs:153-195 | in a run without crashes a destination with queued rows has a status that is not about to be dropped, or a message for it is in the channel or about to be sent |
| SendingStranding.TrackedIffWoken | src/service/sending/mod.rs:119-232 | in every reachable state a destination with queued rows has a status or a message if and only if a row was queued to it, or a start found active rows of it, since the last crash |
| SendingStranding.RecentRowsTracked | src/service/sending/mod.rs:371-439 | a row queued since the last crash keeps its destination's status or message as long as rows wait |
| SendingStranding.StrandedIff | src/service/sending/mod.rs:187-232 | once the start is over, nothing works for queued rows (no transaction, no handler at work, no message) if and only if there is no message and the last transaction failed or the destination was not woken since the last crash |
| SendingStranding.StrandedStays | src/service/sending/mod.rs:150-198 | whatever else happens and however much time passes, stranded rows stay stranded until a row is queued to their destination or the process restarts; the status stays, and only an appservice cleanup takes rows |
| SendingStranding.LastMessageStrands | src/service/sending/mod.rs:213-237 | the last message for a failed destination leaves nothing working for it if and only if it comes less than min(30 n^2, 86400) seconds after failure n |
| SendingWitnesses.FailureStrands | src/service/sending/mod.rs:175-232 | for every destination and two PDUs a run without crashes ends with the second row queued, the status failed and nothing working for it |
| SendingWitnesses.CrashStrands | src/service/sending/mod.rs:119-149 | for every destination and PDU a run with one crash ends with the row queued, no status and nothing working for it |
| SendingTheorems.RetryWaits | src/service/sending/mod.rs:217-230 | after failure n no transaction to the destination is under way or in preparation before min(30 n^2, 86400) seconds have passed |
| SendingRetries.BackoffAddsUp | src/service/sending/mod.rs:175-230 | for a status entry made by some step of the run, the recorded tries are the number of failing steps of its destination since then, and the waiting times, min(30 k^2, 86400) seconds for each failure k that was retried, together fit into the time since then |
| SendingRetries.NoOverflowInRun | src/service/sending/mod.rs:217-224 | in every run the product of the backoff stays below 2^64 seconds for an entry made less than about two million years ago |
| SendingBackoff.ProductFits | src/service/sending/mod.rs:217-222 | thirty times n squared fits into 64 bits exactly for n up to 784150157 |
| SendingService.Service.QueueRequests | src/database/key_value/sending.rs:61-85 | every request becomes a row that parses back to it; older rows keep their contents; nothing else is stored |
| SendingService.Service.SendRequests | src/service/sending/mod.rs:371-439 | the rows are stored first, then one message per row is in the channel, in order |
| SendingService.Service.DeleteAllActiveRequestsFor | src/database/key_value/sending.rs:39-46 | exactly the active rows of the destination disappear |
| SendingService.Service.MarkAsActive | src/database/key_value/sending.rs:99-111 | every row is in the active table with its value and not in the queue, and every other key of both tables is as it was; each row is inserted before it is removed |
| SendingService.Service.HandleOk | src/service/sending/mod.rs:153-174 | after a success a queued row of the destination has moved to the active table if and only if fewer than thirty of its queued rows have a smaller key; no other row of it is active, every other key is as it was, and the transaction under way carries the first thirty rows in key order; without queued rows the status is gone |
| SendingService.Service.HandleErr | src/service/sending/mod.rs:175-184 | a failure is always of a running or retrying destination; it becomes Failed with one more try at the current time, and its rows stay active |
| SendingService.Service.HandleMessage | src/service/sending/mod.rs:187-265 | a destination without status starts with the received row, one whose failure n is at least min(30 n^2, 86400) seconds ago resends all its active rows in key order, every other message is dropped |
| SendingService.Service.Start | src/service/sending/mod.rs:119-149 | exactly the destinations with active rows get a running transaction, with exactly these rows in key order, and no row is dropped |
| SendingService.Service.CleanupEvents | src/database/key_value/sending.rs:48-59 | exactly the appservice's rows disappear from both tables |
| SendingService.Service.Crash | src/service/sending/mod.rs:119-127 | only the tables and the counter survive a stop, and the result is a state from which the handler can start |
| SearchWords.IndexWordsAre | src/database/key_value/rooms/search.rs:9-13 | a message is indexed under exactly the lower-case forms of its longest alphanumeric runs of at most 50 bytes |
| SearchWords.QueryWordsAre | src/database/key_value/rooms/search.rs:39-43 | a query asks for the lower-case forms of all its longest alphanumeric runs, of any length, from left to right |
| Search.CommonElements | src/utils/mod.rs:82-104 | on descending lists the peeking cursors compute the intersection in descending order, although a failed comparison leaves later cursors behind; no lists, no result |
| Search.WordPrefixExact | src/database/key_value/rooms/search.rs:45-57 | the scan prefix of a word holds exactly the entries of that room and word |
| Search.ScanStart | src/database/key_value/rooms/search.rs:50-55 | the backward scan starts at or above a pdu of the room if and only if the room's short id is not the largest |
| Search.Index.IndexPdu | src/database/key_value/rooms/search.rs:8-23 | the pdu is stored under its lower-cased words of at most fifty bytes and under nothing else; the history grows by this call |
| Search.Index.SearchPdus | src/database/key_value/rooms/search.rs:25-74 | newest first and without duplicates, exactly the room's pdus whose stored words contain every query word; nothing for the room with the largest short id; no iterator for a query without words |
| SearchPaging.MergeContents | src/api/client_server/search.rs:70-80 | taking the largest head again and again yields every element of every list, with the same multiplicity |
| SearchPaging.MergeDescends | src/api/client_server/search.rs:70-80 | for descending lists the merge descends and has exactly their elements |
| SearchPaging.SearchEvents | src/api/client_server/search.rs:70-110 | a page is the requested part of the merge's looked-up results, and the next token is given exactly when it is full; if `skip + limit` wraps around, the page is empty and the last |
| SearchRoute.SearchRooms | src/api/client_server/search.rs:36-57 | an error exactly if some room is not joined; otherwise one list per room with exactly the room's hits in descending order, and no lists for a query without words |
| SearchRoute.MergedHits | src/api/client_server/search.rs:70-80 | the merge of the rooms' results has exactly the matching pdus of all rooms |
| SearchRoute.PagesAreHits | src/api/client_server/search.rs:36-110 | if every hit can be looked up, the pages over the rooms, put together, are newest first and hold exactly the matching pdus of all rooms, each once if no room is named twice |
| SearchPaging.AnswersEnd | src/api/client_server/search.rs:106-110 | with a positive limit tokens grow and never pass the number of results, so following them ends |
| SearchPaging.PagesUpToFailure | src/api/client_server/search.rs:82-110 | the pages a client gets are consecutive slices of the merge up to the end of the page with the first failed lookup |
| SearchPaging.PagesComplete | src/api/client_server/search.rs:82-110 | the pages give every result that can be looked up if and only if nothing after that page can be; without failures they give the whole merge |
| SearchPaging.FailureHidesRest | src/api/client_server/search.rs:82-110 | with two results and limit one, a failed lookup of the newer hides the older |
| SearchPaging.LimitZeroNeverEnds | src/api/client_server/search.rs:106-110 | with limit zero every page is empty and the token stays the same |
| PairTable.EnumerateIs | src/database/key_value/rooms/state_cache.rs:316-336 | scanning a first part and splitting off the last part of each key lists its partners in order, each once, and each is text again |
| Membership.RoomsJoinedExact | src/database/key_value/rooms/state_cache.rs:450-471 | the separator-free scan lists exactly the user's rooms if and only if no joined user id strictly extends theirs |
| Membership.RoomsJoinedLeaks | src/database/key_value/rooms/state_cache.rs:450-471 | with only `@a:bc` joined to `!r:b`, the rooms of `@a:b` contain it |
| MembershipIndex.Index.MarkAsJoined | src/database/key_value/rooms/state_cache.rs:20-37 | the pair is joined and nothing else, in all six tables; every other pair is untouched |
| MembershipIndex.Index.MarkAsInvited | src/database/key_value/rooms/state_cache.rs:39-68 | the pair is invited with the given state, or the empty list `[]`, at a count above every count issued before |
| MembershipIndex.Index.MarkAsLeft | src/database/key_value/rooms/state_cache.rs:70-93 | the pair has left with the empty list `[]` as state, at a count above every count issued before |
| MembershipIndex.Index.Forget | src/database/key_value/rooms/state_cache.rs:244-257 | a departure is dropped; joined and invited pairs are untouched |
| MembershipIndex.LookupsReadStanding | src/database/key_value/rooms/state_cache.rs:597-621 | each lookup holds exactly for its standing, so a user is at most one of joined, invited and left |
| MembershipIndex.StoredStandingReturns | src/database/key_value/rooms/state_cache.rs:419-446 | invite and departure come back with the state and count they were stored with, and only then |
| MembershipIndex.MirrorsAgree | src/database/key_value/rooms/state_cache.rs:20-93 | a row is in a user-major table exactly when its mirror is in the room-major one |
| MembershipIndex.RoomMembersExact | src/database/key_value/rooms/state_cache.rs:316-336 | the members of a room are listed in order, each once, exactly those for whom the lookup holds |
| MembershipIndex.RoomMembersInvitedExact | src/database/key_value/rooms/state_cache.rs:392-416 | the same for invited users |
| MembershipIndex.RoomsInvitedExact | src/database/key_value/rooms/state_cache.rs:475-507 | a user's invites are listed with their states, one entry per invited room |
| MembershipIndex.RoomsLeftExact | src/database/key_value/rooms/state_cache.rs:553-585 | a user's departures are listed with their states, one entry per left room |
| MembershipIndex.RoomsJoinedIff | src/database/key_value/rooms/state_cache.rs:450-471 | over the index's tables, the rooms listed as joined are right if and only if no joined user id strictly extends the one asked for |
| Membership.ServerAfterColon | src/database/key_value/rooms/state_cache.rs:101-104 | the server of a user id is everything after its first colon, further colons included |
| MembershipIndex.Tally | src/database/key_value/rooms/state_cache.rs:95-110 | the first loop counts the members, collects exactly the servers that some member is on (a local part without a colon, a colon, the server), and the members on the own server known to be active |
| MembershipIndex.Index.UpdateServers | src/database/key_value/rooms/state_cache.rs:125-154 | whatever servers the room had, afterwards it has exactly the given ones, in both tables; other rooms are untouched |
| MembershipIndex.Index.UpdateJoinedCount | src/database/key_value/rooms/state_cache.rs:95-162 | both counts and the cached local users equal a recomputation from the members, a server is stored for the room if and only if some joined user's id is a local part without a colon, a colon and the server, and the room's cached appservice answers are dropped; other rooms are untouched |
| MembershipIndex.ServerLookupsAgree | src/database/key_value/rooms/state_cache.rs:261-312 | the servers of a room, the rooms of a server and the point lookup describe the same pairs |
| ToDevice.PrefixExact | src/database/key_value/users.rs:748-772 | a key starts with a device's prefix exactly when it is one of that device's rows |
| ToDevice.Queue.AddToDeviceEvent | src/database/key_value/users.rs:748-772 | the event is queued under a fresh count; nothing else changes |
| ToDevice.Queue.GetToDeviceEvents | src/database/key_value/users.rs:774-794 | all waiting events of the device and no others, oldest first |
| ToDevice.Queue.RemoveToDeviceEvents | src/database/key_value/users.rs:796-828 | exactly the device's events with a count up to the bound are deleted |
| ToDevice.Queue.RemoveDeviceEvents | src/database/key_value/users.rs:241-247 | exactly the device's events are deleted |
| ToDeviceTheorems.AtLeastOnce | src/api/client_server/sync.rs:1030-1072 | in every interleaving of requests, sends and removals, an event whose row was written before any response of its device covered its count is still queued with its content, unless its device received a response that holds it or was removed since |
| ToDeviceTheorems.OnlyOwnEvents | src/database/key_value/users.rs:774-794 | in every run a response holds only events of its own device, each written before with that content |
| ToDeviceTheorems.InOneGoIsTimely | src/database/key_value/users.rs:748-772 | an event whose row is written in the step after its count was drawn is written in time |
| ToDeviceTheorems.InOneGoAtLeastOnce | src/api/client_server/sync.rs:1030-1072 | such an event is, in every later state of the run, still queued with its content, unless its device received a response that holds it or was removed since |
| ToDeviceTheorems.RemovedOnlyAfterReceipt | src/api/client_server/sync.rs:1030-1033 | a step other than the removal of its device deletes an event written in time only after its device received a response with it |
| ToDeviceTheorems.TokenMeansReceived | src/api/client_server/sync.rs:174-174 | a device that holds a token has received every event up to it that was written in time, unless it was removed since |
| ToDeviceTheorems.LateEventCanBeLost | src/database/key_value/users.rs:748-772 | from every reachable state, an unreceived event whose count was covered when its row was written can be deleted by three more steps, none of them a removal of the device, without reaching it |
| ToDeviceTheorems.LateHappens | src/database/key_value/users.rs:748-772 | such an event occurs when a response is built between drawing the count and writing the row |
| AccountData.UpdateHolds | src/database/key_value/account_data.rs:15-62 | an update keeps index rows and data rows matched and replaces the one entry |
| AccountData.IndexDataBijection | src/database/key_value/account_data.rs:45-59 | index rows and data rows pair up one to one |
| AccountData.Store.Update | src/database/key_value/account_data.rs:15-62 | the name's entry becomes the new value at a new count; an incomplete value is refused, and only the counter has moved |
| AccountData.Store.Get | src/database/key_value/account_data.rs:66-95 | the value of the last update, if there was one |
| AccountData.Store.ChangesSince | src/database/key_value/account_data.rs:99-144 | exactly the types whose last update has at least the first possible count, each with its latest value |
| AccountData.ChangesExact | src/database/key_value/account_data.rs:116-118 | these are the types changed after the token if and only if the token is not the largest or there is no data |
| AccountData.LargestTokenReturnsAll | src/database/key_value/account_data.rs:116-118 | with the largest token an entry is returned that has not changed |
| Short.InternNew | src/database/key_value/rooms/short.rs:8-217 | giving a new id the next count keeps forward and reverse tables inverse to each other and all numbers distinct |
| Short.NumbersDistinct | src/database/key_value/rooms/short.rs:8-217 | two ids of any of the four kinds have the same number only if they are the same id |
| Short.BackwardGet | src/database/key_value/rooms/short.rs:110-177 | a reverse row leads to the one id of that kind with that number, and is missing exactly when there is none |
| ShortService.Interner.Evict | src/database/key_value/rooms/short.rs:8-176 | any cache entries may vanish at any time without invalidating anything |
| ShortService.Interner.GetOrCreateShortEventId | src/database/key_value/rooms/short.rs:8-32 | the number the event id has, or the next count, whatever the cache holds; known ids keep their numbers |
| ShortService.Interner.GetShortStateKey | src/database/key_value/rooms/short.rs:34-69 | the number the state key has, or none, whatever the cache holds |
| ShortService.Interner.GetOrCreateShortStateKey | src/database/key_value/rooms/short.rs:71-108 | the number the state key has, or the next count, whatever the cache holds |
| ShortService.Interner.GetEventIdFromShort | src/database/key_value/rooms/short.rs:110-136 | the inverse of event interning; an error exactly for numbers that are no event's |
| ShortService.Interner.GetStateKeyFromShort | src/database/key_value/rooms/short.rs:138-177 | the inverse of state key interning, through the split at the first separator |
| ShortService.Interner.GetOrCreateShortStateHash | src/database/key_value/rooms/short.rs:180-194 | the number the hash has, or the next count, and whether it was known |
| ShortService.Interner.GetShortRoomId | src/database/key_value/rooms/short.rs:196-204 | the number the room has, or none |
| ShortService.Interner.GetOrCreateShortRoomId | src/database/key_value/rooms/short.rs:206-217 | the number the room has, or the next count |
| Watchers.Store.Watch | src/database/abstraction/watchers.rs:15-26 | the watcher joins its prefix's channel, which is made if there is none |
| Watchers.Store.WakeRead | src/database/abstraction/watchers.rs:33-43 | the loop over lengths collects the watched prefixes of the key, shortest first |
| Watchers.Store.WakeWrite | src/database/abstraction/watchers.rs:45-52 | each collected prefix that is still watched is removed and its channel notified |
| Watchers.NoMissedWakeup | src/database/abstraction/watchers.rs:15-53 | in every interleaving, when a wake returns, every watcher registered on a prefix of its key before the step that called it has been notified |
| Watchers.WakeReturns | src/database/abstraction/watchers.rs:33-53 | whatever else runs, a wake returns after at most two steps of its own |
| Watchers.ToldForOwnPrefix | src/database/abstraction/watchers.rs:33-53 | a watcher is only ever notified for a key with its prefix |
| Watchers.NewWatcherWaits | src/database/abstraction/watchers.rs:15-32 | a watcher that has just registered has not been notified |
| MissingEvents.Walk | src/api/server_server.rs:984-1027 | at most `limit` events, each stored in the room, not among the earliest and reachable; a first occurrence is never preceded by an event farther away; an exhausted walk returns every such event; it fails only for a reachable bad event, and an exhausted walk has met none |
| MissingEvents.FirstIsShortest | src/api/server_server.rs:987-1024 | the first queue entry of an event lies at the event's distance from the latest events |
| MissingEvents.ExhaustedIsComplete | src/api/server_server.rs:987-1024 | once the queue is exhausted, every reachable event was visited |
| Proxy.SuffixRule | src/config/proxy.rs:126-138 | the rule `*.d` matches exactly the domains that end in `.d` |
| Proxy.StarRule | src/config/proxy.rs:126-138 | the rule `*` matches every domain |
| Proxy.ExactRule | src/config/proxy.rs:126-138 | every other rule matches exactly the domain it spells |
| Proxy.MoreSpecificMatchesLess | src/config/proxy.rs:114-125 | one rule is more specific than another exactly when it matches a proper part of the domains the other matches; the built-in wildcard also gives way to a rule that matches everything |
| Proxy.RankDecides | src/config/proxy.rs:106-125 | among rules that match a domain, being more specific is having the higher rank |
| Proxy.NotWeakInGeneral | src/config/proxy.rs:114-124 | among all rules it is not a strict weak order: two suffixes with different endings and an extension of one of them |
| Proxy.MostSpecific | src/config/proxy.rs:75-90 | each loop ends with a matching rule of the highest rank, or none when none matches |
| Proxy.ForUrl | src/config/proxy.rs:67-96 | the proxy is used exactly when some matching include rule outranks every matching exclude rule |
| Proxy.OrderIrrelevant | src/config/proxy.rs:67-96 | reordering either list changes nothing |
| Proxy.EmptyIncludeIsStar | src/config/proxy.rs:24-29 | for every list of written exclude rules, an empty include list decides as `*` does |
| Proxy.FirstProxy | src/config/proxy.rs:45-47 | with several proxies the first one that is used for the domain is taken |

## Left out

- HTTP, DNS, signatures, JSON and push gateways: payloads and states are opaque bytes, the outcome of a transaction is a step of the run.
- Identifier grammar beyond what keys need: ids are well-formed UTF-8; user ids in keys of push destinations contain `@` and `:`, a user id without a colon counts as on the empty server, server names do not begin with `+` or `$`.
- Database errors: the tables are maps, so a table operation itself does not fail; the error paths for malformed rows are there and proved not to be taken.
- Search.Index: tokenising depends on Unicode tables, so which characters are alphanumeric, the byte length and the lower-case form of a word are parameters; rooms are given by their short ids.
- EDUs added by `select_edus` are a parameter of a step: they are never stored, so no loss is not claimed for them.
- The semaphore that limits concurrent requests and the timeout of a transaction: any transaction may take any time.
- ToDevice.Queue.AddToDeviceEvent: draws the count and writes the row in one call; the protocol in `ToDeviceSync` splits them.
- ShortService: each call is one step, as if the calls did not overlap; two concurrent calls for the same new id are not modelled.
- MembershipIndex.Index: each call is one step; filling the appservice cache and the table of users who once joined are not modelled.
- Membership counts: `update_joined_count` is modelled for rooms with fewer than 2^64 members.
- Counter exhaustion: operations that draw a count require the counter to be below 2^64 - 1.
- MissingEvents.Walk: the checks before the loop (federation enabled, server in room, server ACL) and the conversion of events to their outgoing form.
- Server-name resolution, login, room creation and joining, state resolution, timeline, presence, media, key backup, aliases, database migrations: request plumbing over foreign code, or tables for which no such law holds.
