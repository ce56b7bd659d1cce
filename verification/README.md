# Sessions: a verified model

A session store for agents keeps four Spanner tables (sessions, their events, app state and user
state) behind two surfaces: a gRPC service, and ADK's session service with its live session
handles. This project models what that code does to values, tables and objects, and proves the
properties its callers rely on. `dafny verify dfyconfig.toml` checks all of it.

## How the model is laid out

* **Values and conversions.** `Values` and `Sanitizing` hold Go's dynamic values, `Struct` values
  and the conversions between them. `Timestamps`, `Enums`, `Messages`, `Parts` and `Events` hold
  both shapes of an event and the converters. Nil and empty collections are told apart on the Go
  side and not on the proto side, as in the program.
* **State scopes.** `ScopedState` splits one flat map by the `app:`, `user:` and `temp:` prefixes
  and merges the parts again.
* **The store.** `Tables`, `UpdateMask` and `Transactions` say what each operation reads, buffers
  and commits. `SpannerService` is the store as an object whose tables change in place, each method
  proved against its transaction. `History` is about all serial sequences of commits, and
  `Interleaving` about any number of calls in flight that read row by row, retry, give up and
  commit only if the rows they read are unchanged. `UpdateSession` reads its row in a step of its
  own, outside its transaction.
* **Queries.** `EventWindow` is the filtered and limited event query, `Listing` the events a reader
  gets and how their order relates to commit order, and `Paging` and `Encoding` are offset
  pagination with its tokens. `Folds` is about maps overwritten by sequences of deltas.
* **Live sessions.** `LiveSession` compares a handle with what a fresh read would give, call by call,
  and `LiveRuns` over whole runs, calls whose answer is lost included. `AdkService` has the handle
  and the service as objects. `Detachment` has the objects behind a recorded event, with maps,
  slices and structs that can be shared and overwritten.
* **Schema tooling.** `DescriptorSet` and `ProtoBundle` are the two graph searches that prepare a
  test database, over `Graphs`.

The model takes these from outside: transactions are serializable, a commit applies all its
mutations or none, `Insert` fails on an existing key, `InsertOrUpdate` overwrites, and deleting a
missing row is a no-op. Clocks, fresh ids and the answer of the database to a query (some listing in
the order asked for, cut at the limit) are parameters. A call has one reading of the clock for the
rows it prepares and one for the shared rows its commit writes.

## What the proofs found

* Reading an event back and storing it again does not always give the same event a second time. A
  tool-confirmation payload that is a foreign Go value marshalling to an object with `{}` in it
  reads back with an empty map, and that map is stored as null on the next trip. `Events.SecondTrip`
  gives the exact condition. The comment at event_conversion.go:21-24 promises that an event reads
  back exactly as it was written; `Events.EventRoundTrip` says which events do.
* Under the default update mask, an update that carries only `expire_time` removes the expiration,
  because `ttl` is applied last (`UpdateMask.DefaultMaskDropsExpireTime`).
* An update that leaves `state` unmasked still writes the whole row it read before its transaction.
  A session delta appended in between is lost, while its event row and its app and user parts
  survive (`History.StaleUpdateLosesDelta`, and as runs `Interleaving.LostDeltaRun` and, from
  empty tables, `Interleaving.LostDeltaIsReachable`). An update also always leaves its session in
  place: it brings back, without its events, one that was deleted since its read, exactly when the
  last commit to the session in between is a delete (`History.UpdateRevivesExactly`, and as a run
  from empty tables `Interleaving.RevivalIsReachable`).
* Replaying events in listed order rebuilds session state exactly when, for every key, the last
  event to set it says the same in commit order and in listed order
  (`Listing.ListedReplayExactly`). A run from empty tables in which it does not is
  `Listing.LateCommitIsReachable`.
* A call that stores its event while its caller is told otherwise leaves the handle behind
  (`LiveSession.UnheardAgrees`). After a run with such calls the handle shows what a fresh read
  gives exactly when the events it missed are overwritten by those it heard of, or said nothing new
  (`LiveRuns.LiveSessionAgreesExactly`).
* A typed nil pointer (`*genai.FunctionCall`, `*genai.FunctionResponse` or
  `*toolconfirmation.ToolConfirmation`) that sanitising reaches is dereferenced at
  conversion.go:326-350, and the call panics (`Sanitizing.SanitizeValue`). An event's conversion
  panics exactly when the first thing it cannot store is stopped by one
  (`Events.NilPointersPanic`).
* Listings are ordered by a time alone. With given page sizes, and whatever order the database gives
  to rows with equal times on each call, pages see every row once exactly when no two rows with
  equal times lie on both sides of the end of a page (`Paging.CompleteExactly`).
* The enum converters are only stable on tables in which no value's short name is another value's
  full name (`Enums.EnumRestoresIff`, `Enums.AmbiguousTableDrifts`).
* The comment at adk_service.go:295-297 wants a recorded compaction out of the caller's reach. Its
  fields, its list of holes, its parts slice and the fields of its parts are, but what the parts
  point to is shared. In the same way the clones of the delta and of the confirmations are one level
  deep: maps and lists nested in their values are shared by the caller, the record and the live
  state. A later write shows in a record exactly when it changes an object that the record's
  references lead to (`Detachment.RecordThenWriteOne`).

## Model

| member | source | states |
|---|---|---|
| ScopedState.SplitScopedState | helpers.go:152-168 | key by key: `app:` and `user:` keys go to their parts without the prefix, `temp:` keys nowhere, all others to the session |
| ScopedState.MergeStateMaps | helpers.go:177-187 | key by key: an `app:` or `user:` key answers from its shared map if it is there, every other key from the session |
| ScopedState.TrimTempKeys | event_conversion.go:294-312 | every key but the `temp:` ones keeps its value, and without such keys the input itself, nil included, comes back |
| ScopedState.MergeOfSplit | helpers.go:152-187 | splitting any flat map and merging the parts gives it back without its `temp:` keys |
| ScopedState.SplitOfMerge | helpers.go:152-187 | merging three maps and splitting gives the three back if and only if the session map holds no scoped key |
| ScopedState.ScopedWritesAreFlat | spanner.go:361-390 | overwriting the three rows part by part is overwriting the one merged map with the delta less its `temp:` keys |
| ScopedState.SplitIgnoresTemp | spanner.go:361-362 | trimming a delta before splitting it changes none of the parts, and trimming twice is trimming once |
| SpannerService.RebuiltDelta | spanner.go:361-369 | reading a stored delta as a Go map, trimming it and building a Struct again cannot fail and only drops the `temp:` keys |
| SpannerService.SecondTrimChangesNothing | spanner.go:361-369 | the delta that the event conversion stores passes the append's own trim and rebuild unchanged |
| SpannerService.SessionIdMeaning | spanner.go:323 | the id is the supplied candidate without surrounding space unless blank, then the requested one, then a fresh one; it is never empty and has no space at its ends unless fresh |
| SpannerService.TrimSpaceIs | spanner.go:323 | trimming takes all space off both ends and nothing else |
| Transactions.ExecuteMeaning | spanner.go:318-450 | when each transaction fails and with what, and the content of all four tables when it does not; in particular the row written at the key inside the proto is the row read at the composite key |
| Transactions.AppendSeen | spanner.go:349-399 | the event is stored as it came but for ids, a missing time and `temp:` keys; its session row keeps ids, display name, expiration and creation time, takes its time, and its own keys of the delta; the shared rows take the prefixed ones |
| Transactions.UpdateSeen | spanner.go:167-222 | the row of an update, field by field from the request and the mask, and both shared rows |
| Transactions.OutcomeShared | spanner.go:421-450 | the app and user row after any transaction, key by key from the prefixed keys it was given, with their time, or untouched without such keys |
| Transactions.ExecuteFrame | spanner.go:318-450 | no operation touches another session's row or events, another app's row or another user's row, and a delete touches no shared row |
| SpannerService.Store.Commit | spanner.go:371-399 | the tables become the result of all the mutations, or stay as they were when one insert meets an existing key |
| SpannerService.Store.ScopedStateMutations | spanner.go:421-450 | writes a shared row only for a non-empty delta, as the row read overwritten by the delta, and returns the resulting states either way |
| SpannerService.Store.CreateSession | spanner.go:318-343 | refuses bad input untouched; otherwise one new row under the request's app and user with its display name, session keys, times of now and its ttl as an instant; the shared rows take the prefixed keys, and their states are returned as they are after it |
| SpannerService.Store.AppendEvent | spanner.go:349-399 | does exactly the append transaction; the event keeps its id and time if it has them and all fields but the `temp:` keys; the session row keeps all but its state and update time |
| SpannerService.Store.DeleteSession | spanner.go:403-410 | does exactly the delete transaction, which never fails |
| SpannerService.Store.UpdateSession | spanner.go:167-222 | when nothing commits between its read and its transaction: missing id, missing session and unsupported path fail untouched; otherwise each field of the row and of both shared rows is given by the request and the mask, which without paths is all four fields |
| SpannerService.Store.ReadSessionById | spanner.go:473-501 | NotFound exactly when no session has the id, FailedPrecondition exactly when two do, otherwise the one that has it |
| SpannerService.Store.AppendEventById | spanner.go:294-310 | NotFound without a session of that id, FailedPrecondition with two; with exactly one, the outcome of the append transaction on it, error or success; a failure changes nothing |
| UpdateMask.MaskedSession | spanner.go:175-208 | the loop succeeds exactly on lists of the four paths; a field comes from the request exactly if it is listed or no path is, and the last expiration path sets the request's instant, or now plus its ttl, or none |
| UpdateMask.DraftIsUpdated | spanner.go:175-209 | the same of the specified fold, with the update time |
| UpdateMask.UnsupportedPathFails | spanner.go:205-206 | one unsupported path anywhere in the list fails the update whatever else is listed |
| UpdateMask.MaskMeaning | spanner.go:175-208 | the fold in closed form: it succeeds exactly when all paths are supported, a field is taken from the request exactly when listed, and the last expiration path alone decides the expiration |
| UpdateMask.DefaultMaskDropsExpireTime | spanner.go:175-204 | with an empty mask a session keeps an expiration exactly when the request carries a ttl |
| UpdateMask.MaskKeepsIdentity | spanner.go:175-208 | no path list changes a session's ids or creation time |
| History.HistoryIsCoherent | spanner.go:318-415 | after any history every event row has its session row, every row's key equals the ids in its proto, no session row holds a scoped key, no event delta a `temp:` key, and every event has a time |
| History.SharedRowsAreFolds | spanner.go:421-450 | every app row and user row is the fold, in commit order, of all deltas committed for it, and exists exactly if one of them was not empty |
| History.EventRowsAreAppends | spanner.go:371-394 | the event rows of a session are the ids of the appends committed in its lifetime, which never repeat |
| History.RetryAppliesOnce | spanner.go:371-394 | two committed appends of one id to one session have a delete of that session between them |
| History.DuplicatesFail | spanner.go:329-337 | creating an existing session or appending an existing event fails with AlreadyExists, appending to no session with NotFound |
| History.SessionReplay | spanner.go:371-394 | from its creation, under appends and updates that overtake no commit and leave state unmasked, session state is its initial keys folded with the session part of every stored event's delta |
| History.AppendEffect | spanner.go:371-394 | a committed append adds its session part to the row, stores one event with the whole non-temp delta, and leaves every other event's delta |
| History.AppendKeepsRow | spanner.go:371-394 | a committed append leaves ids, display name, expiration and creation time of its row, and its update time is the stored event's |
| History.RowSince | spanner.go:371-394 | while only appends hit a row, those fields are what they were and its update time is that of the last event appended |
| History.CreateWrites | spanner.go:318-343 | in any history, a committed create puts the requested fields into its row and the prefixed keys into the shared ones |
| History.UpdateWrites | spanner.go:167-222 | in any history, a committed update's row is the row it read with the masked fields of the request, and the shared rows take its prefixed keys |
| History.UpdateKeepsUnmasked | spanner.go:167-222 | an update whose read no commit to the row has overtaken keeps every unmasked field, the ids and the creation time |
| History.UpdateRestoresUnmasked | spanner.go:210-217 | whatever was committed meanwhile, an update puts every unmasked field (state, display name, expiration), the ids and the creation time back to what it read, and touches no event; without state in the mask no shared row either |
| History.StateSince | spanner.go:371-394 | while only appends hit a session's row, its state is what it was overwritten by their session parts in commit order |
| History.RacedAppendsSurvive | spanner.go:167-222 | what appends between an update's read and its write brought to state survives if and only if each key they set was last set to what the update had read |
| History.StaleUpdateLosesDelta | spanner.go:167-222 | from any history: read, append, write loses the appended session delta while the event row, its delta and the app and user parts survive |
| History.StaleUpdateRevivesSession | spanner.go:167-222 | from any history: read, delete, write leaves the session back in place with its old creation time and no events |
| History.UpdateRevivesExactly | spanner.go:167-222 | whatever was committed meanwhile, an update leaves its session in place; it was gone before the update if and only if the last commit to it since the read is a delete, and then it comes back without events |
| Interleaving.BodyOfValidReads | spanner.go:329-396 | an attempt whose reads are still current buffers what it would buffer if it read everything at the commit |
| Interleaving.StepIsAtomic | spanner.go:318-410 | each step of any interleaving is invisible in the tables or is one whole transaction run alone |
| Interleaving.FailedCommitChangesNothing | spanner.go:329-399 | a commit whose transaction cannot succeed changes none of the four tables |
| Interleaving.StepKeepsInvariant | spanner.go:167-410 | every step keeps the tables equal to the outcome of the log and every pending update's row explained by a prefix of it |
| Interleaving.RunsAreSerial | spanner.go:167-410 | at every point of every run the tables are those of the committed transactions run one by one in commit order |
| Interleaving.RunTables | spanner.go:318-450 | so in every run the row invariant holds and no shared delta is lost |
| Interleaving.CommitSucceeds | spanner.go:329-399 | a commit whose transaction can succeed does, with exactly its outcome |
| Interleaving.LostDeltaRun | spanner.go:167-222 | the nine enabled steps by which an update overwrites an appended delta, from any reachable state that has the session |
| Interleaving.DoAllKeepsInvariant | spanner.go:167-410 | any sequence of enabled steps keeps the invariant of tables, log and pending updates |
| Interleaving.LostDeltaIsReachable | spanner.go:167-222 | for every session, every event and every supported mask without state, the run from empty tables that ends with the event stored and the session in the state it was created with |
| Interleaving.RevivalIsReachable | spanner.go:167-222 | for every session and every supported mask, the run from empty tables in which a delete commits and the session is there at the end |
| EventWindow.ListingIsUnique | spanner.go:547-572 | timestamp and event id order the rows of a session totally, so each order has one listing |
| EventWindow.FilterIsTight | spanner.go:550-553 | the `after` filter drops no event at or after the instant and returns none more than 999 ns earlier, for every nanosecond |
| EventWindow.FilterIsSuffix | spanner.go:550-553 | the filter keeps an end of the ascending listing |
| EventWindow.WindowIsLast | spanner.go:554-571 | the descending, limited answer turned around is the last min(n, len) rows of the ascending filtered list |
| EventWindow.AllIsAscending | spanner.go:554-571 | without a positive count the answer is the whole ascending filtered list |
| EventWindow.WindowIsSuffix | spanner.go:547-572 | any filter and count return an end of the session's whole listing |
| EventWindow.Reverse | spanner.go:568-570 | swapping inwards reverses the array in place |
| EventWindow.ListSessionEvents | spanner.go:547-572 | whatever the database answers to the query, the result is the window |
| Listing.ListedInCommitOrder | spanner.go:547-572 | events are listed in commit order if and only if each append's row sorted after the earlier ones |
| Listing.ListedReplay | spanner.go:371-394 | replaying a session's events in the order they are listed rebuilds its state when commits came in that order |
| Listing.ListedReplayExactly | spanner.go:371-394 | replaying in listed order rebuilds the state if and only if, for every key, the last event to set it in commit order and the last in listed order set it alike |
| Listing.LateCommitBreaksReplay | spanner.go:371-394 | two appends that set one key differently and commit against their listed order replay to another state than the stored one |
| Listing.LateCommitIsReachable | spanner.go:371-394 | for every session and every two such events, the run from empty tables that ends so |
| Listing.ListedIdsGrow | spanner.go:547-572 | a new event goes somewhere into the list, at its end if and only if its row sorts last |
| Listing.ListedGrows | spanner.go:391-394 | an event whose row sorts last adds itself at the end of the list and changes nothing else in it |
| LiveSession.FreshGetAgrees | adk_service.go:57-88 | a handle just read agrees with the store in state and update time, whatever window of events was asked for |
| LiveSession.StoredIsConverted | spanner.go:353-369 | the store's preparation leaves a converted event that has its id and time as it is |
| LiveSession.CallMeaning | adk_service.go:139-165 | a call answers success exactly if the event is partial or was stored; only a stored one changes the tables or the handle |
| LiveSession.CommittedState | adk_service.go:139-211 | a stored event gives a fresh read its time, and its delta as it reads back, without `temp:` keys |
| LiveSession.AppendAgrees | adk_service.go:139-211 | one call, whatever becomes of it, keeps handle and store in agreement |
| LiveSession.UnheardAgrees | adk_service.go:159-164 | if the event was stored and the caller told otherwise, the handle still agrees if and only if the event has the time it knows and its delta reads back as nothing new |
| LiveRuns.ForeignStep | adk_service.go:57-88 | a commit that writes neither the session nor its shared rows changes nothing a fresh read of it shows |
| LiveRuns.LiveSessionAgreesExactly | adk_service.go:139-211 | after any run of calls by the only writer, partial, failing and unheard ones included, the handle's time is the stored one and its state less `temp:` keys, as it would read back, what a fresh Get returns, if and only if the last stored event has the time of the last one heard of and all stored events settle every key as those heard of do |
| LiveRuns.LiveSessionAgrees | adk_service.go:139-211 | in particular when the handle heard of every event that was stored |
| LiveRuns.LiveEventsAgree | adk_service.go:205-211 | when each stored event sorts last, the handle's list grew by the events it heard of and a fresh Get's list by what all stored ones read back as |
| LiveRuns.LiveIdsAgree | adk_service.go:205-211 | over any run the two lists end with the same ids in the same order if and only if they began so, every stored event was heard of, and each sorted after all earlier ones |
| LiveRuns.LiveEventsAreFresh | adk_service.go:205-211 | a handle that began with the whole list ends with the fresh one if and only if it heard of every event it stored, each sorted last, and all are canonical |
| LiveRuns.HandleRefinesStore | adk_service.go:57-211 | from a full Get to the end of any run, the handle is a fresh Get up to `temp:` keys and value normalisation under exactly those conditions |
| LiveRuns.IncreasingTimesRefine | adk_service.go:57-211 | with timestamps that strictly increase in microseconds, exactly when it heard of every event and all are canonical |
| LiveSession.AssignedOnce | adk_service.go:149-154 | a missing id and time are assigned once and kept by every retry with the same event object |
| LiveSession.RetryIsDuplicate | adk_service.go:149-165 | retrying after a commit the caller did not learn of fails as a duplicate and changes nothing, whatever else committed, unless the session was deleted |
| AdkService.DatabaseSession.constructor | adk_service.go:181-190 | a handle holds the stored ids and time and the merged state |
| AdkService.DatabaseSession.RecordEvent | adk_service.go:205-211 | a recorded event is added at the end of the list, sets the time, and its delta answers for its keys before the old state |
| AdkService.ADKService.Create | adk_service.go:36-53 | fails exactly as the create transaction does and changes nothing then; otherwise the handle has the app and user asked for, the trimmed or a fresh id, the time of now, no events, and as state the request's keys as they read back, but `temp:` ones, over the app and user state there was; any Get right after it returns the same |
| AdkService.ADKService.Get | adk_service.go:57-88 | returns exactly the fresh view: session, merged state and event window, or NotFound |
| AdkService.ADKService.AppendEvent | adk_service.go:139-165 | tables, handle, the caller's event and the answer are those of the specified call; of the caller's event exactly a missing id and time are drawn, and they stay even if it fails or panics; which of two payload errors comes first is left open, as map order is |
| AdkService.ADKService.Delete | adk_service.go:125-130 | needs all three ids; then exactly the session and its events are gone |
| AdkService.CreatedIsFresh | adk_service.go:36-53 | a new session has no events, so the handle from Create equals a fresh Get |
| Detachment.CopyParts | adk_service.go:306-313 | overwriting the cloned slice part by part leaves new part structs with equal fields, nil parts nil, and the caller's slice as it was |
| Detachment.CopyCompaction | adk_service.go:298-317 | the copy holds what the record held, in objects that are all new |
| Detachment.CopyEvent | adk_service.go:284-293 | the copy holds what the event held; its maps, slices and compaction record are new objects |
| Detachment.PerformAll | adk_service.go:284-317 | no sequence of writes to objects outside a record's own changes what it holds, and one that spares all objects some references lead to changes nothing seen from them |
| Detachment.PerformShows | adk_service.go:281-293 | one write of any kind is seen from some references, to any depth, if and only if it changes an object they lead to |
| Detachment.EventList.Append | adk_service.go:208 | appending to the slice, in place or in a larger array, adds the event at the end |
| Detachment.EventList.Record | adk_service.go:205-211 | the list grows by a new record that holds what the caller's event held at the call, and the state takes over the values of its delta, references included |
| Detachment.EventList.All | adk_service.go:253-264 | the snapshot is a new array with the events there are |
| Detachment.RecordThenWrite | adk_service.go:205-211 | after an append, any writes to any objects the caller had leave the record as the event was at the call, down to its references; what the references lead to stays too if none of those objects is written to |
| Detachment.RecordThenWriteOne | adk_service.go:281-317 | after an append and one write, the record with all it leads to, to any depth, is what the event was if and only if the write did not change an object that the event's references led to |
| Detachment.SharedContentShows | adk_service.go:280-283 | the limit of that: the event's own content is shared, and a write to it shows in the record |
| Detachment.SharedCallShows | adk_service.go:304-315 | inside the compaction record the parts are copied and what they point to is not: a write to a part's function call shows in the record |
| Detachment.IterateAfterAppends | adk_service.go:253-264 | an iteration sees the events there were when it was asked for, whatever is appended later |
| Encoding.Base64RoundTrip | helpers.go:75-91 | padded base64 (section 4 of RFC 4648) decodes to the bytes that were encoded |
| Encoding.DecimalRoundTrip | helpers.go:75-91 | decimal printing and parsing invert each other on every 64-bit int |
| Paging.NormalizePageSize | helpers.go:111-119 | a size from 1 to 1000 is kept, a larger one becomes 1000 and any other 100 |
| Paging.TokenRoundTrip | helpers.go:75-95 | a token parses to the offset it was printed from, and only offset 0 prints as the empty token |
| Paging.NegativeTokenFails | helpers.go:82-95 | a token that carries a negative offset is refused |
| Paging.SecondPageToken | helpers.go:75-80 | the token of offset 100 in full |
| Paging.ListPage | spanner.go:122-165 | reading one row too many and cutting it off gives the page and token of the specification |
| Paging.CutStep | spanner.go:159-163 | a page is the next stretch of the listing, not empty unless it is exhausted, and names the first row not returned exactly when there is one |
| Paging.PageStep | spanner.go:251-292 | the same of a whole call, with tokens |
| Paging.WalkIsComplete | spanner.go:122-165 | from any token, following tokens terminates and returns the rest of the listing without gap or repeat, whatever page sizes are asked for |
| Paging.PaginationIsComplete | spanner.go:122-165 | from the empty token the pages are the whole listing |
| Paging.CompleteExactly | helpers.go:213-243 | when each call gets its own answer, any listing of the rows sorted by their time, walks with given page sizes see every row exactly once if and only if no tie lies across the end of a page |
| Paging.CompleteWithoutTies | helpers.go:213-243 | walks of all page sizes do if and only if no two rows tie |
| Paging.TiesRepeat | helpers.go:213-243 | with a tie across the end of a page there are answers for which a walk sees a row twice |
| Values.RestoreValue | spanner.go:452-457 | a Struct value read as a Go value builds the same Struct value again |
| Sanitizing.SanitizeMap | conversion.go:298-312 | the loop sanitises every entry, nil and empty both becoming nil, and panics exactly if a nil pointer is reached |
| Sanitizing.SanitizeValue | conversion.go:314-356 | ends on every finite value: with a panic exactly if a typed nil pointer is reached, otherwise with the rewritten value; a function call, response or confirmation becomes a map of exactly its fields, each under its own name |
| Sanitizing.StoreMap | conversion.go:298-367 | a map is stored, refused, or panics as specified; stored, it has exactly the map's keys, under each what its value reads back as, typed values field by field |
| Sanitizing.SanitizedIdempotent | conversion.go:314-356 | sanitising twice is sanitising once |
| Sanitizing.SanitizedIsStorable | conversion.go:314-367 | a sanitised value builds a Struct value if and only if its leaves are JSON-like |
| Sanitizing.StoredIsFixed | conversion.go:298-367 | a value stored in a Struct reads back as itself exactly when it is plain |
| Sanitizing.ReadsBackAs | conversion.go:298-367 | what every storable value reads back as: typed values as maps of id, name and args, of id, name and response, or of hint, confirmed and payload; integers as floats, bytes as text, maps and lists element by element |
| Sanitizing.RestoreSanitized | conversion.go:298-367 | anything read from a Struct sanitises and stores as the same Struct value |
| Sanitizing.StoredDictIsFixed | conversion.go:358-367 | a map reads back as itself exactly when it is nil or a non-empty map of plain values, and what reads back always is |
| Sanitizing.StoredDictReadsBack | conversion.go:358-367 | any map that can be stored reads back entry by entry, an empty one as nil |
| Sanitizing.JsonIsFixed | conversion.go:369-389 | a value stored as JSON reads back as itself exactly when plain, can be stored again, and then stays the same |
| Sanitizing.PayloadIsFixed | event_conversion.go:119-152 | a confirmation payload reads back as itself exactly when plain and free of empty maps |
| Sanitizing.PayloadReadsBackAs | event_conversion.go:119-152 | what every payload reads back as, typed values field by field, empty maps as nil |
| Sanitizing.PayloadIdempotence | event_conversion.go:119-152 | what a payload reads back as can be stored, and is stable exactly when no foreign value in it marshals to an empty object |
| Timestamps.InstantRoundTrip | conversion.go:433-445 | every instant comes back to the nanosecond, with nanos from 0 to 999999999, and only the zero time is stored as absent |
| Timestamps.DurationRoundTrip | conversion.go:423-431 | every duration comes back, with seconds and nanos of its sign, and only zero is stored as absent |
| Enums.EnumRestoresIff | conversion.go:231-249 | every declared value survives read-back and re-storing if and only if the table is unambiguous |
| Enums.EnumIsFixed | conversion.go:231-249 | a name survives storage exactly when it is a known short name or unset, and what reads back is one |
| Enums.EnumReadsBack | conversion.go:231-249 | any name reads back as its short name if the table has it under either name, and otherwise, like that of zero, as unset |
| Enums.AmbiguousTableDrifts | conversion.go:231-249 | a table with a clash of names moves a value on every trip |
| Parts.PartToProto | conversion.go:55-120 | the first set data field in the program's order is stored, each of its fields under its own name, and a failing map fails the part |
| Parts.ContentToProto | conversion.go:26-39 | converts part by part, keeping role, order and number, each stored part showing its own, and stops at the first error |
| Parts.ContentFromProto | conversion.go:41-53 | the loop reads every part back, in order, nil when there is none |
| Parts.ResponseRound | conversion.go:88-101 | a function response and its parts come back exactly when canonical |
| Parts.PartRound | conversion.go:55-179 | a part reads back as itself exactly when it has one data field at most, canonical inside; what reads back is always such a part |
| Parts.PartReadsBack | conversion.go:55-179 | what any part reads back as: everything but nil against empty, and of several data fields the first |
| Parts.ContentReadsBack | conversion.go:26-53 | any content reads back with its role and its parts one by one |
| Parts.ContentRound | conversion.go:26-53 | the same of whole contents, with no nil part and no empty list |
| Events.DeltaRound | event_conversion.go:119-123 | a delta reads back as itself exactly when canonical and free of `temp:` keys |
| Events.ConfirmationsRound | event_conversion.go:119-180 | confirmations come back exactly when not an empty map and each payload survives |
| Events.ConfirmationsIdempotence | event_conversion.go:119-180 | a second trip works, and is the identity exactly without foreign empty objects |
| Events.CompactionRound | event_conversion.go:182-220 | a compaction record comes back with every timestamp to the nanosecond, exactly when canonical |
| Events.ActionsRound | event_conversion.go:119-180 | actions come back exactly when each of their parts is canonical |
| Events.ActionsReadsBack | event_conversion.go:119-180 | what any actions read back as, field by field |
| Events.EventRoundTrip | event_conversion.go:25-117 | a stored event reads back as itself if and only if it is canonical |
| Events.EventReadsBack | event_conversion.go:25-117 | what any event reads back as, in closed form: only nil against empty, values and payloads as they read back, `temp:` keys, further data fields of a part and unknown enum names can differ |
| Events.StoredEventReads | event_conversion.go:79-117 | how any stored event is read, whoever stored it: absent strings, flags and times as zero, and no actions as empty ones |
| Events.SecondTrip | event_conversion.go:25-117 | what reads back can be stored again, and is then the identity if and only if no confirmation payload held a foreign empty object |
| Events.ForeignEmptyPayloadDrifts | event_conversion.go:119-152 | an event for which the second trip does change something |
| Events.ActionsToProto | event_conversion.go:119-152 | the loop over the confirmations and the conversions around it compute the specified actions or error, where of a panic and a refusal among the payloads either can come first |
| Events.NilPointersPanic | event_conversion.go:25-77 | a conversion panics if and only if the first thing it cannot store (delta, payloads, compacted content, content, metadata, in this order) is stopped by a nil pointer |
| Parts.ContentPanics | conversion.go:26-120 | content converts if and only if the map of each part's first data field can be stored, and panics if and only if the first part that cannot has a nil pointer there |
| Events.ActionsFromProto | event_conversion.go:154-180 | fields are filled step by step into the specified actions, nil where the proto is empty |
| Events.CompactionToProto | event_conversion.go:182-202 | start, end and each hole are stored under their own names, holes in order |
| Events.CompactionFromProto | event_conversion.go:204-220 | reads the holes back one by one, nil when there is none |
| Events.EventToProto | event_conversion.go:25-77 | the whole event conversion, or the first error in the program's order, map order left open; every field of the stored event shows the event's own, and empty ones are absent |
| DescriptorSet.Walk.Add | internal/spannertest/spannertest.go:149-159 | one visit ends, marks exactly files the visited one reaches, keeps what was listed and lists a file after its imports unless they lead back to it |
| DescriptorSet.FilesOf | internal/spannertest/spannertest.go:142-162 | the list has each transitively imported file once and nothing else, and every import before its importer when no import cycle exists |
| DescriptorSet.PlacedIsSorted | internal/spannertest/spannertest.go:149-159 | without cycles the placement kept by the search is dependency order |
| DescriptorSet.CyclesCannotBeSorted | internal/spannertest/spannertest.go:149-159 | with a cycle no list could have every import first |
| ProtoBundle.Walk.AddEnum | internal/spannertest/spannertest.go:176-182 | lists an enum once |
| ProtoBundle.Walk.AddMessage | internal/spannertest/spannertest.go:183-218 | one visit ends on any type graph, and lists the message, or for a map entry the type of its field `value`, and covers what it refers to |
| ProtoBundle.BundledTypes | internal/spannertest/spannertest.go:169-230 | said of the descriptors: without repeats, exactly the types other than map entries that a type of the file leads to by fields and nesting, map entries leading on by their field `value` only; so every field, nested and own type is listed or replaced by its value type |
| ProtoBundle.EdgesAreReferences | internal/spannertest/spannertest.go:184-218 | the edges of the searched graph are the references of the descriptors |
| ProtoBundle.ListedIsReachable | internal/spannertest/spannertest.go:174-230 | a finished search has listed exactly what is reachable |
| ProtoBundle.CoveredHoldsReachable | internal/spannertest/spannertest.go:183-218 | covered sets are closed under reaching, through unmarked map entries too |

## Left out

- Grounding, usage, citation and log-probability metadata, the response schema of a requested input, and the remaining fields of the model library's content types that the package does not persist: long copies field by field.
- SQL text, filters, order-by strings, resource-name parsing, table prefixes, DDL and emulator scripts; the quoting of the bundle statement and the serialization of the descriptor set.
- The emulator's timestamp column in whole seconds. The microsecond properties are about the production column.
- The Spanner client: retries and validation are steps of `Interleaving`, with the guarantees listed above assumed.
- Mutexes of a handle: each of its methods is one step. Two callers that append through one handle at once may record in another order than they commit.
- `DatabaseSessionState.Set`, which changes the handle alone: the agreement of handle and store is about handles on which it is not called.
- ADK sessions that are not this package's handles: `AppendEvent` stores through them just the same and records nothing live.
- `List`, `GetSession`, `GetEvent` and `readEventByID`: single reads.
- Rows that are written between two calls of one pagination walk: the set of rows is fixed, the order of tied ones is not.
- Wire encoding, UTF-8 validity, time zones and the monotonic clock reading, float32 rounding inside JSON, and saturation of durations and timestamps outside their proto range.
- The JSON form of typed Go values is decided by code outside the package, so such a value carries it; a pointer and the value it points to are one case, and a nil pointer is another.
- Iteration order of Go maps is arbitrary, and the loops are proved for every order.
- Sub-slices and spare capacity of the caller's slices: in `Detachment` a slice is a whole array.
- Values.RestoreValue: floats are abstract, so it does not look at bit patterns of not-a-number.
- SpannerService.Store.UpdateSession: runs its read and its transaction in one step; what can come between them is in `History` and `Interleaving`.
- LiveSession.CommittedState: assumes that the platform's providers return a non-empty id and a non-zero time.
- LiveRuns.LiveSessionAgreesExactly: holds values of state and events by value, as all of `LiveSession` and `LiveRuns` do. A map or list nested in a delta that is changed in place after the append changes the handle and not the store; `Detachment` says which writes those are.
- ProtoBundle.BundledTypes: claims nothing about parents of nested types. The comment at internal/spannertest/spannertest.go:165-168 says they are needed, and the search adds them only where they are reached.
- DescriptorSet.FilesOf: import order is claimed for the imports that do not lead back to their importer, which in a registry without cycles is all of them.
