# zoo-schedule, modelled in Dafny

zoo-schedule is a small Next.js calendar for a zoo's bookings and maintenance work. Its
events live in one Google Sheets tab: row 1 holds the headers, and every later row is
`[id, title, date, type, description, created_at]`. Four API routes change the sheet or
read it: insert, update, delete and range. A fifth, the webhook, only notifies. Insert,
update and webhook notify an in-process publish/subscribe bus. A Server-Sent-Events
endpoint subscribes to that bus and tells every open browser tab that the data changed.
The browser shows a Monday-first month grid. It has a local-storage fallback store and
a service worker that caches static files.

The project models that core:

- `SseBus` is the listener Set and `emit`, which takes a snapshot first. Re-entrant
  subscribes and unsubscribes, and throwing listeners, are parameters. It also models
  the process-global get-or-create slot.
- `StreamRoute` models the event-stream endpoint as a state machine over the frames it
  enqueues. It includes an abstract client that reads those frames under the
  event-stream rules of the WHATWG HTML Living Standard, section 9.2.6 ("Interpreting
  an event stream").
- `GSheets` models the row logic of `lib/gsheets.ts` over an in-memory grid: range
  listing with its stable sort, append, first-match delete and update with the
  `idx + 2` row arithmetic, and the sheet-id check.
- `InsertRoute`, `UpdateRoute`, `DeleteRoute`, `RangeRoute` and `WebhookRoute` are the
  handlers. Each validates in the source's order, makes at most one store call, and
  then emits or does not. Each returns its response and the ordered log of side
  effects.
- `Db` models the local-storage branch of `lib/db.ts`, the event types and their
  colours.
- `MonthCalendar` models the date helpers, `monthMatrix`, the grouping of events by
  day, the eight-dot cap, the retry counter and the form's title guard.
- `ServiceWorker` models the fetch-routing decision and the cache-first branch of
  `public/sw.js`.
- `Text` (`String.prototype.trim`, `\d`, string order, decimal rendering), `Http` and
  `Wrappers` are shared support modules.

The following are parameters of the operations rather than modelled:

- The request body after `req.json()`. It is a `Result`, so a body that fails to parse
  becomes the 500 answer with the parser's message.
- The generated id and the current timestamp.
- The failure of a store call. It is a message, and a failing call leaves the sheet
  unchanged.
- The outcome of a network fetch.
- Which listeners throw, or subscribe and unsubscribe while being called.

## Model

| member | source | states |
|---|---|---|
| `SseBus.AddedSpec` | lib/sse-bus.ts:7-8 | after `add(fn)` exactly the old listeners and `fn` are present; the old ones keep their order as a prefix; a duplicate-free Set stays duplicate-free |
| `SseBus.SubscribeTwice` | lib/sse-bus.ts:5-8 | subscribing a function twice leaves the Set as after once, with `fn` counted once |
| `SseBus.RemovedSpec` | lib/sse-bus.ts:9 | `delete(fn)` removes exactly `fn`; the others keep their order; an absent `fn` changes nothing |
| `SseBus.UnsubscribeTwice` | lib/sse-bus.ts:9 | calling the returned unsubscribe a second time changes nothing |
| `SseBus.UnsubscribeUndoesSubscribe` | lib/sse-bus.ts:7-9 | subscribing a new function and unsubscribing it restores the Set exactly |
| `SseBus.ApplyAllDistinct` | lib/sse-bus.ts:5-9 | any sequence of subscribes and unsubscribes keeps the listeners duplicate-free |
| `SseBus.Bus.Subscribe` | lib/sse-bus.ts:7-10 | the Set becomes `Added(old, fn)` and the returned closure unsubscribes `fn` |
| `SseBus.Bus.Unsubscribe` | lib/sse-bus.ts:9 | the Set becomes `Removed(old, fn)`, and the result says whether `fn` was present |
| `SseBus.Bus.Perform` | lib/sse-bus.ts:7-10 | one subscribe or unsubscribe performed by a running listener changes the Set as `add` or `delete` would |
| `SseBus.Bus.Reenter` | lib/sse-bus.ts:13-15 | the bus calls a running listener makes change the Set as those operations applied in order |
| `SseBus.Deliveries` | lib/sse-bus.ts:13-15 | the call log of an `emit` has one entry per listener of the snapshot |
| `SseBus.Bus.Emit` | lib/sse-bus.ts:12-20 | the calls made are exactly those to the listeners present at the start, in insertion order, all with the same payload; listeners that throw are recorded and the loop goes on; the Set afterwards is what the listeners' own re-entrant calls made of it |
| `SseBus.DeliveredExactlyOnce` | lib/sse-bus.ts:13-15 | every listener of the snapshot is called exactly once, and no other function is called |
| `SseBus.ThrowingIsIsolated` | lib/sse-bus.ts:14-18 | which listeners throw changes neither who is called nor the payload, only the `threw` mark |
| `SseBus.EmitKeepsSet` | lib/sse-bus.ts:12-20 | without re-entrant calls `emit` leaves the Set unchanged |
| `SseBus.LateSubscriberMissesEmit` | lib/sse-bus.ts:13 | a listener subscribed during an `emit` is in the Set afterwards but is not called by that `emit` |
| `SseBus.RemovedListenerStillCalled` | lib/sse-bus.ts:13-18 | a snapshot listener removed during an `emit` is still called, and an earlier listener's throw does not stop it |
| `SseBus.Global.GetBus` | lib/sse-bus.ts:29-30 | a bus is created only when the global slot is empty; otherwise the stored bus is returned |
| `SseBus.ReloadSharesBus` | lib/sse-bus.ts:29-30 | evaluating the accessor twice yields the same bus, which stays in the slot |
| `StreamRoute.WireIsTwoLines` | app/api/stream/route.ts:11-25 | every frame is one line followed by an empty line |
| `StreamRoute.Wire` | app/api/stream/route.ts:11-25 | the bytes of the three frames: `retry: 5000`, `data: <json>` and `: keepalive`, each followed by a blank line |
| `StreamRoute.RetryFrameSetsReconnect` | app/api/stream/route.ts:11 | a client reading `retry: 5000` and the blank line sets its reconnection time to 5000 and dispatches nothing |
| `StreamRoute.DataFrameDispatches` | app/api/stream/route.ts:14-18 | a client reading a data frame dispatches exactly its JSON text as one message |
| `StreamRoute.KeepAliveIsIgnored` | app/api/stream/route.ts:24-26 | the keep-alive frame is a comment line, does not begin with `data:`, and leaves the client unchanged |
| `StreamRoute.ClientSeesOneMessagePerData` | app/api/stream/route.ts:14-26 | after any run of data and keep-alive frames the client has one message per data frame, an empty buffer and the same retry setting |
| `StreamRoute.Stream.Open` | app/api/stream/route.ts:9-33 | opening enqueues exactly the retry frame, appends one listener to the bus, starts the interval, and stores the cleanup on the controller, not on the source object |
| `StreamRoute.Stream.Send` | app/api/stream/route.ts:14-21 | on an open stream the listener appends one `data: {"event":"changed"}` frame whatever the payload; on a closed one its enqueue throws and nothing is written; nothing else changes |
| `StreamRoute.Stream.Tick` | app/api/stream/route.ts:24-26 | a firing interval appends one keep-alive frame on an open stream and throws on a closed one; a cleared interval does neither |
| `StreamRoute.Stream.Cleanup` | app/api/stream/route.ts:29-32 | cleanup stops the interval, unsubscribes exactly the stream's listener, and writes no frame |
| `StreamRoute.Publish` | app/api/stream/route.ts:21 | an emit on the bus calls the stream's listener exactly while it is subscribed; that call adds one data frame on an open stream and throws (caught by the bus) on a closed one; the bus's Set is unchanged |
| `StreamRoute.OpenNotifyClose` | app/api/stream/route.ts:9-33 | open, emit, tick, cleanup, emit, tick yields exactly retry, data, keep-alive, and the bus ends with its listeners from before the open |
| `StreamRoute.Stream.Cancel` | app/api/stream/route.ts:34-37 | as written: the stream is closed, and since the source object has no `_cleanup`, which is always the case, the interval and the subscription stay |
| `StreamRoute.CancelLeaksListener` | app/api/stream/route.ts:29-37 | after open and cancel as written, the listener is still on the bus and the interval still runs; a later emit still calls the listener, whose enqueue throws, a later firing of the interval throws, and the client receives nothing beyond the retry directive |
| `StreamRoute.Stream.CancelCorrected` | app/api/stream/route.ts:34-37 | the intended cancel closes the stream and runs the controller's cleanup: interval stopped and listener removed |
| `StreamRoute.CorrectedCancelReleases` | app/api/stream/route.ts:29-37 | with the intended cancel the bus returns to its listeners from before the open; a later emit does not call the stream's listener, and nothing throws |
| `GSheets.CollectMembers` | lib/gsheets.ts:70-83 | a record is listed exactly when some row has a non-empty id and `from <= date <= to` in string order, and reads as that record |
| `GSheets.CollectedInRange` | lib/gsheets.ts:72-73 | every listed record has a non-empty id and a date within the bounds |
| `GSheets.ToEvent` | lib/gsheets.ts:71-81 | a row reads as the record of its six cells in order, a missing description as "" (stated by `GSheets.WrittenRowReadsBack`) |
| `GSheets.Collect` | lib/gsheets.ts:70-83 | the records of the rows with a non-empty id and a date within the bounds, one per such row, in sheet order (stated by `GSheets.CollectInSheetOrder`, `GSheets.ListedRowsCounts`, `GSheets.CollectMembers` and `GSheets.CollectedInRange`) |
| `GSheets.CollectInSheetOrder` | lib/gsheets.ts:70-83 | the loop's output is the record of each listed row, in sheet order, one per row: nothing is reordered or merged before the sort |
| `GSheets.ListedRowsCounts` | lib/gsheets.ts:72-73 | a row with a non-empty id and a date within the bounds is kept as often as it occurs in the sheet, and every other row is dropped |
| `GSheets.SortByDate` | lib/gsheets.ts:85 | the sort returns a permutation of the listed records |
| `GSheets.SortByDateSorted` | lib/gsheets.ts:85 | the result is in ascending date order |
| `GSheets.SortByDateStable` | lib/gsheets.ts:85 | among records of one date the sheet order is kept (the sort is stable) |
| `GSheets.Sheet.ListEventsInRange` | lib/gsheets.ts:60-86 | the loop collects exactly the listed rows in sheet order, then sorts them; a failing read gives its error |
| `GSheets.WrittenRowReadsBack` | lib/gsheets.ts:99-104 | the appended row reads back as the returned record, with a missing description as "" |
| `GSheets.InsertedRow` | lib/gsheets.ts:99 | the appended row `[id, title, date, type, description ?? "", created_at]` (stated by `GSheets.WrittenRowReadsBack`) |
| `GSheets.Sheet.InsertEvent` | lib/gsheets.ts:89-105 | exactly one row `[id, title, date, type, description ?? "", created_at]` is appended after the last row, and the record with the same fields is returned; the header row stays as it was |
| `GSheets.FindIndex` | lib/gsheets.ts:117-119 | `findIndex` yields the first data row whose id cell equals the id, or -1 exactly when there is none |
| `GSheets.SheetIdByTitleFirstMatch` | lib/gsheets.ts:41-48 | the lookup looks only at the first tab with the title: it succeeds exactly when that tab exists and has an id, and then returns the id; otherwise it fails with the "tab not found" message |
| `GSheets.SheetIdZeroAccepted` | lib/gsheets.ts:44-47 | a sheet id of 0 is accepted; a missing one is rejected |
| `GSheets.SheetIdByTitle` | lib/gsheets.ts:41-48 | the first tab whose title is the sheet name gives its id, 0 included; a missing tab or id is the "tab not found" error (stated by `GSheets.SheetIdByTitleFirstMatch`) |
| `GSheets.Sheet.DeleteEventById` | lib/gsheets.ts:108-144 | with no match it returns false and leaves the grid alone; otherwise it deletes grid rows `[idx + 1, idx + 2)`, which removes only the first matching data row, keeps the others in order, and returns true; a failing tab lookup changes nothing; the header row stays as it was |
| `GSheets.KeptCreatedAt` | lib/gsheets.ts:173 | the current row's `created_at` is kept when the cell is present and non-empty, and the new timestamp is used when it is missing or empty |
| `GSheets.Sheet.UpdateEventById` | lib/gsheets.ts:147-200 | with no match it returns null and changes nothing; otherwise it overwrites only grid row `idx + 1` (sheet row `idx + 2`) and returns the record it wrote; the header row stays as it was |
| `GSheets.UpdatePreservesCreatedAt` | lib/gsheets.ts:168-199 | an update of a row with a `created_at` keeps that timestamp in the written row |
| `GSheets.UpdateStampsMissingCreatedAt` | lib/gsheets.ts:173 | an update of a row whose `created_at` cell is missing or empty writes the time of the update |
| `Http.TrimmedOrEmptySpec` | app/api/events/insert/route.ts:40-41 | a field reads as an already trimmed string (`Text.TrimIsSlice` says what trimming cuts); it is "" exactly when the field is missing, not a string, or only white space |
| `Http.Options` | app/api/events/insert/route.ts:94-96 | every route's `OPTIONS` answers 204 with no body and that route's no-cache headers (the same handler at update/route.ts:59-61, delete/route.ts:41-43, range/route.ts:57-59 and webhook/route.ts:34-36; stated by its definition) |
| `Http.IsEventType` | app/api/events/insert/route.ts:31-33 | a value is an event type exactly when it is a string equal to one of the five labels |
| `Http.EventTypeLabels` | app/api/events/insert/route.ts:23-33 | a type is valid exactly when it is one of the five labels, compared case-sensitively |
| `Http.EventTypeIsTruthy` | app/api/events/insert/route.ts:46-65 | a valid type always passes the earlier `!type` test |
| `Text.TrimIsSlice` | app/api/events/insert/route.ts:40-41 | `trim` yields the input without its leading and trailing white space |
| `Text.TrimEmptyIff` | app/api/events/insert/route.ts:46 | a field is empty after trimming exactly when it is all white space |
| `Text.TrimIdempotent` | app/api/events/update/route.ts:28-30 | trimming twice is trimming once |
| `Text.Trim` | app/api/events/insert/route.ts:40-41 | the trimmed string is no longer than the input and neither starts nor ends with JavaScript white space |
| `Text.Utf16Length` | app/api/events/insert/route.ts:67 | `length` counts UTF-16 code units: at least one and at most two per character |
| `Text.Utf16LengthBmp` | app/api/events/insert/route.ts:67 | `length` equals the number of characters exactly when every character is below U+10000 |
| `Text.OneCharacterLength` | app/api/events/insert/route.ts:67 | one character is one code unit long up to U+FFFF and two above; an emoji such as U+1F981 is two |
| `Text.IsDateShape` | app/api/events/insert/route.ts:35 | `/^(\d{4})-(\d{2})-(\d{2})$/`: ten characters, ASCII digits except a dash at positions 4 and 7 |
| `Text.LessEqTotalOrder` | app/api/events/range/route.ts:40-44 | `<=` on strings is reflexive, total, antisymmetric and transitive |
| `InsertRoute.Rejection` | app/api/events/insert/route.ts:46-72 | checks run in this order: required, then date shape, then type, then title `length` ≥ 2 counted in UTF-16 code units; the first failure picks the message; acceptance holds exactly when the date has the shape, the type is a label and the title is two or more code units long |
| `InsertRoute.OneCharacterTitleRejected` | app/api/events/insert/route.ts:67-72 | a one-character title below U+10000 fails only the length check; a single character above it, such as an emoji, is two code units long and is accepted |
| `InsertRoute.NoCalendarCheck` | app/api/events/insert/route.ts:35-58 | `2025-02-30` is accepted: the date is checked by pattern only |
| `InsertRoute.NonStringType` | app/api/events/insert/route.ts:46-65 | a truthy non-string type and an unknown label are invalid; a falsy type is reported as missing |
| `InsertRoute.Post` | app/api/events/insert/route.ts:37-91 | a rejected body makes no store call and emits nothing; a failing insert gives 500 with no emit; on success the row is appended, then exactly one payload-less emit follows, and the saved record is returned with 200; a description that is not a string becomes ""; the title length is counted in UTF-16 code units; every answer carries `Pragma: no-cache`, `Expires: 0` and the route's `Cache-Control` |
| `UpdateRoute.Rejection` | app/api/events/update/route.ts:34-42 | id, title or date empty after trimming, or a falsy type, is 400 "required"; then the date shape; then the type label; there is no length check |
| `UpdateRoute.OneCharacterTitleAccepted` | app/api/events/update/route.ts:34-44 | a one-character title is accepted |
| `UpdateRoute.Post` | app/api/events/update/route.ts:25-57 | a rejected body makes no store call; an unknown id gives 404 with no emit; a store error gives 500 with no emit; on success the first matching row is overwritten, then exactly one emit of `{changed, update, id}` with the trimmed id follows, and 200 carries the written record; every answer carries `Pragma: no-cache`, `Expires: 0` and the route's `Cache-Control` |
| `UpdateRoute.NotifiedIdIsTrimmed` | app/api/events/update/route.ts:28 | spaces around the id do not reach the store or the notification |
| `DeleteRoute.BlankIdRejected` | app/api/events/delete/route.ts:23-28 | the id is "" exactly when it is missing, not a string, or only white space, and a kept id has no surrounding white space |
| `DeleteRoute.Post` | app/api/events/delete/route.ts:21-38 | an empty id gives 400 with no store call; otherwise `deleteEventById` is called once and the answer is 200 `{ok: true}` whether a row was found or not; a store error gives 500; nothing is ever emitted; every answer carries `Pragma: no-cache`, `Expires: 0` and the route's `Cache-Control` |
| `RangeRoute.ParamSpec` | app/api/events/range/route.ts:26-27 | a parameter reads as "" exactly when it is missing or only white space; padding around it does not matter, and what is read is already trimmed |
| `RangeRoute.Rejection` | app/api/events/range/route.ts:29-37 | a missing or empty bound gives "from/to required"; otherwise a bound without the date shape gives "from/to must be YYYY-MM-DD"; both bounds of the date shape are accepted |
| `RangeRoute.Ordered` | app/api/events/range/route.ts:40-44 | after the swap `from <= to`; the pair holds the same two strings; it is swapped only when `from > to` |
| `RangeRoute.OrderedSymmetric` | app/api/events/range/route.ts:40-44 | bounds given in either order normalise to the same pair, and normalising twice changes nothing |
| `RangeRoute.Get` | app/api/events/range/route.ts:23-54 | a rejected query makes no store call; otherwise the store is asked for exactly the normalised pair, and 200 carries its sorted listing or 500 its error; nothing is emitted; every answer carries `Pragma: no-cache`, `Expires: 0` and the route's `Cache-Control` |
| `RangeRoute.ReversedBoundsSameAnswer` | app/api/events/range/route.ts:40-47 | reversed bounds answer with the same events |
| `WebhookRoute.Configured` | app/api/events/webhook/route.ts:19 | the configured secret is empty exactly when the variable is unset or empty |
| `WebhookRoute.Provided` | app/api/events/webhook/route.ts:20-23 | the provided secret is a non-empty header, else a non-empty query parameter, else "" |
| `WebhookRoute.Authorised` | app/api/events/webhook/route.ts:25 | a request passes exactly when a secret is configured and the provided value equals it |
| `WebhookRoute.AuthorisedIff` | app/api/events/webhook/route.ts:19-27 | an empty configured secret authorises nothing; otherwise a request is authorised exactly when the header, or the query parameter when the header is empty, equals the secret |
| `WebhookRoute.HeaderShadowsQuery` | app/api/events/webhook/route.ts:20-25 | a wrong non-empty header is refused even when the query parameter is right |
| `WebhookRoute.Post` | app/api/events/webhook/route.ts:18-32 | unauthorised gives 401 with no emit; authorised gives exactly one emit of `{changed}`, then 200 `{ok: true}`; every answer carries `Pragma: no-cache`, `Expires: 0` and the route's `Cache-Control` |
| `Db.LabelRoundTrip` | lib/db.ts:5 | the five labels read back as their types, and a string is a label exactly when the routes accept it as a type |
| `Db.ColorsAreDistinctHex` | lib/db.ts:8-10 | every type has a `#rrggbb` colour, and no two types share one |
| `Db.FilterCounts` | lib/db.ts:27 | the local range returns each stored event with a date in the bounds as often as it is stored, and nothing else |
| `Db.FilterKeepsOrder` | lib/db.ts:27 | the local range keeps the stored order; it is a subsequence |
| `Db.FilterAllInRange` | lib/db.ts:27 | when every event is in range the list comes back exactly as stored, unsorted |
| `Db.Filter` | lib/db.ts:27 | `filter` keeps the stored events with `from <= date <= to`, in stored order (stated by `Db.FilterCounts` and `Db.FilterKeepsOrder`) |
| `Db.Color` | lib/db.ts:8-10 | `TYPE_COLORS`: one `#rrggbb` colour per type, all different (stated by `Db.ColorsAreDistinctHex`) |
| `Db.LocalStore.Range` | lib/db.ts:21-29 | the local `range` holds exactly the stored events in the bounds, each as often as it is stored, in stored order; nothing stored, or text that does not parse, reads as no events (`lsRead`) |
| `Db.LocalStore.Insert` | lib/db.ts:30-39 | the local `insert` appends one item that copies title, date and type, has a null description when none was given, and is the value returned |
| `Db.InsertAppends` | lib/db.ts:36-37 | after an insert the earlier items are unchanged and in place, and the new item is last and listed by every range containing its date |
| `MonthCalendar.DaysInMonth` | components/MonthCalendar.tsx:22-23 | the last day of a month is 28 to 31, and 29 exactly in February of a Gregorian leap year |
| `MonthCalendar.DaysInMonthByCivil` | components/MonthCalendar.tsx:22-23 | the month length is the calendar's: the first of the next month (December rolling into January) lies exactly that many days after the first of the month, on the same day count that gives the weekday |
| `MonthCalendar.MarchYearLength` | components/MonthCalendar.tsx:22-23 | from 1 February to 1 March there are 29 days exactly in a Gregorian leap year, else 28 |
| `MonthCalendar.WeekdayAnchor` | components/MonthCalendar.tsx:24 | the weekday function puts 1 January 2025 on a Wednesday |
| `MonthCalendar.WeekdayOfDay` | components/MonthCalendar.tsx:24 | within a month each day is one weekday after the day before |
| `MonthCalendar.DaysFromCivil` | components/MonthCalendar.tsx:21-24 | the day count of a proleptic Gregorian date, on which `getDay` is computed |
| `MonthCalendar.Weekday` | components/MonthCalendar.tsx:24 | `getDay()`: a weekday from 0 (Sunday) to 6 |
| `MonthCalendar.IsoDateRoundTrip` | components/MonthCalendar.tsx:8-13 | for four-digit years `isoDate` gives the `YYYY-MM-DD` shape, with month and day padded to two digits, and it reads back as the date |
| `MonthCalendar.IsoDate` | components/MonthCalendar.tsx:8-13 | `YYYY-MM-DD` with the month and day padded to two digits (stated by `MonthCalendar.IsoDateRoundTrip`) |
| `MonthCalendar.FormatDateCH` | components/MonthCalendar.tsx:37-42 | `d.m.yyyy` without padding (stated by `MonthCalendar.FormatDateCHRoundTrip` and `MonthCalendar.FormatDateCHUnpadded`) |
| `MonthCalendar.FormatDateCHRoundTrip` | components/MonthCalendar.tsx:37-42 | `d.m.yyyy` reads back as the date |
| `MonthCalendar.FormatDateCHUnpadded` | components/MonthCalendar.tsx:37-42 | day and month are not padded (`7.3.2025`) |
| `MonthCalendar.AddMonth` | components/MonthCalendar.tsx:17-19 | the result is the first of a month, `delta` months after the input's month, with month overflow carried into the year |
| `MonthCalendar.AddMonthCompose` | components/MonthCalendar.tsx:17-19 | moving by `a` months and then by `b` is moving by `a + b`; moving by 0 gives the first of the same month |
| `MonthCalendar.AddMonthRollsOver` | components/MonthCalendar.tsx:17-19 | December plus one is January of the next year, and January minus one is December of the previous year |
| `MonthCalendar.Lead` | components/MonthCalendar.tsx:24 | the number of leading blanks is 0 to 6 |
| `MonthCalendar.GridCell` | components/MonthCalendar.tsx:26-31 | cell `k` of the grid: blank for the first `Lead` cells, then the days 1 to the month's length, then blanks |
| `MonthCalendar.MonthMatrix` | components/MonthCalendar.tsx:20-36 | the result has 6 weeks of 7 cells; cell `7i + j` is blank in the first `(weekday + 6) % 7` positions, then holds days 1..daysInMonth in order, then is blank to the end |
| `MonthCalendar.GridPlacesDays` | components/MonthCalendar.tsx:24-31 | every day of the month appears once, in the Monday-first column of its weekday |
| `MonthCalendar.Group` | components/MonthCalendar.tsx:341-345 | a bucket exists exactly for the dates that have events, and holds that date's events in input order |
| `MonthCalendar.OnDateCounts` | components/MonthCalendar.tsx:343 | a date's bucket holds each event of that date as often as the input does, and nothing else |
| `MonthCalendar.OneBucketPerEvent` | components/MonthCalendar.tsx:343 | each event is in the bucket of its own date and in no other |
| `MonthCalendar.Dots` | components/MonthCalendar.tsx:372-382 | at most 8 dots, one per event in order, each in its type's colour |
| `MonthCalendar.DotsAndBadgeCount` | components/MonthCalendar.tsx:372-387 | dots plus badge number account for every event of the day |
| `MonthCalendar.LoadWithRetry` | components/MonthCalendar.tsx:312-319 | `loadWithRetry(t)` calls `load` `t + 1` times, with counter `t, t - 1, …, 0`, whichever of the calls throw |
| `MonthCalendar.DefaultRetryLoadsThrice` | components/MonthCalendar.tsx:312-319 | the default `loadWithRetry()` loads three times, even when loads throw |
| `MonthCalendar.Save` | components/MonthCalendar.tsx:196-201 | no insert when the trimmed title is shorter than two UTF-16 code units; otherwise one insert of the title as typed |
| `MonthCalendar.PaddedShortTitleRefused` | components/MonthCalendar.tsx:198 | `" A "` is refused |
| `ServiceWorker.Cache.NetworkFirst` | public/sw.js:26-31 | a navigation answers with the network's response; when the fetch fails, with the cached root page `/`, or nothing when it was never cached; the cache is never written |
| `ServiceWorker.OfflineNavigationServesRoot` | public/sw.js:26-31 | with the root page cached, a navigation gets the network's page online and the cached root page offline |
| `ServiceWorker.Route` | public/sw.js:16-48 | API paths are never intercepted; navigations go network-first; other same-origin GETs go cache-first; everything else falls through |
| `ServiceWorker.StreamNeverIntercepted` | public/sw.js:21-23 | every path starting with `/api`, `/api/stream` among them, is left untouched whatever the mode, method and origin |
| `ServiceWorker.NestedStreamPath` | public/sw.js:21 | a path that contains `/api/stream` below another prefix is caught by the second test only |
| `ServiceWorker.Cache.CacheFirst` | public/sw.js:34-47 | the cached copy is answered if present, else the network's; the fetch is issued either way, so the stored entries follow the network's answer on a hit as on a miss, and only a 200 of type `basic` is stored |
| `ServiceWorker.OnlyBasicOkCached` | public/sw.js:39-41 | a response is stored exactly when its status is 200 and its type is `basic` |
| `ServiceWorker.Cacheable` | public/sw.js:39 | a response is cacheable exactly when it exists, has status 200 and type `basic` |
| `ServiceWorker.StaleWhileRevalidate` | public/sw.js:36-44 | a cached copy is served even when the network has a new one, and the next request sees the new one |

## Left out

- The Google Sheets client, JWT authentication, the environment checks and the cached `_sheets` client (lib/gsheets.ts:1-38) are replaced by an in-memory grid whose calls may fail as a whole.
- The Supabase branch of lib/db.ts (lib/db.ts:16-34) is foreign I/O.
- The JSON round trip of `localStorage` is left out. `Db.Stored` holds a readable list, nothing, or unreadable text. A parsable value that is not an array is not modelled.
- The React rendering, modals, the date picker, hooks, focus and visibility refresh of components/MonthCalendar.tsx are UI, as are app/page.tsx and app/layout.tsx.
- `monthLabel`'s `toLocaleString` and the `new Date("YYYY-MM-DD")` parsing are left out. They depend on the host's locale and time zone.
- The `db.delete` call of the calendar is left out: lib/db.ts defines no such operation.
- Real time is left out: the 25-second keep-alive interval, the 350 ms retry delay, ReadableStream transport, back-pressure and async interleaving. Keep-alive is the discrete `Tick`, and the retries are a list of attempts.
- `crypto.randomUUID()`, `Math.random()` and `new Date().toISOString()` are parameters.
- JSON serialisation of responses is left out. A response is a status, a `Json` value and the three headers. The `Content-Type` and CORS headers of the stream response are not modelled.
- The caught error's message, `err?.message ?? "error"`, is modelled as the message the failing call carries. An error without a message, answered with `"error"`, is not modelled.
- `GSheets.ToEvent`: a missing `title`, `type` or `created_at` cell is reported as `undefined` by the source. The model reads it as "" (a missing description is "" in both).
- `GSheets.Sheet.ListEventsInRange`: `localeCompare` on the date strings is modelled as lexicographic order of code points. The two agree on `YYYY-MM-DD` strings, but not on every string a sheet cell can hold.
- `Text.Less` and `Text.LessEq` compare code points, while JavaScript's `<` and `<=` on strings compare UTF-16 code units. The two orders differ only between a character above U+FFFF and one from U+E000 to U+FFFF, which no `YYYY-MM-DD` date contains.
- `GSheets.Sheet.UpdateEventById` and `GSheets.Sheet.DeleteEventById` are modelled as atomic. Each makes several API calls, and another writer could change the sheet between them.
- `MonthCalendar.DaysInMonth`, `MonthCalendar.Weekday` and `MonthCalendar.AddMonth` use the proleptic Gregorian calendar. `new Date(y, …)` maps years 0 to 99 to 1900 to 1999, and that quirk is not modelled.
- `MonthCalendar.IsoDateRoundTrip` covers four-digit years only. For other years `isoDate` does not give the `YYYY-MM-DD` shape, and the model computes that too.
- The service worker's `install` and `activate` handlers (`skipWaiting`, `clients.claim`) are left out. So is the asynchronous timing of `cache.put`: the cache-first branch is modelled as one sequential step.
- The `OPTIONS` handlers are modelled by the one constant function `Http.Options`, applied to each route's `Cache-Control` value: 204, no body and the route's no-cache headers. Next.js's treatment of a JSON `null` body on a 204 is not modelled.
- A listener that calls `emit` itself while the bus is calling it is not modelled. The listeners' re-entrant calls are limited to `subscribe` and the returned unsubscribe. The only listener in the sources, the stream endpoint's, calls nothing on the bus.

## Findings

| source | as written | input that shows it | evidently intended | confidence | as-written member | corrected member |
|---|---|---|---|---|---|---|
| app/api/stream/route.ts:29-37 | `start` stores `_cleanup` on the controller, but `cancel` calls `this._cleanup?.()`, and `this` there is the underlying-source object. So cancel finds nothing and never stops the interval or unsubscribes. | a client opens the stream and disconnects (`cancel`); any later `emit` still calls the dead stream's listener, whose enqueue throws, and its keep-alive keeps firing and throwing | `cancel` runs the cleanup closure that `start` created, so the listener is removed and the interval cleared | not executed | `StreamRoute.CancelLeaksListener` | `StreamRoute.CorrectedCancelReleases` |
