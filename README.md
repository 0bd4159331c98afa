# Equipment metric dashboard: backend and mock data provider

The system is a monitoring dashboard for machine tools and test benches.
It has two data providers:

- A Flask backend serves a static tree of devices and their metrics. It
  simulates metric collection, generates time series for charts, answers event
  queries by merging synthetic events with events users stored, stores created
  and edited events in memory, and summarises a report window.
- A browser-side mock provider answers the device, metric, collect, data and events questions without a server. It has no create, update or report.
  Its tree groups the metrics of each device by axis.

This project models both providers in Dafny:

| file | module | what it holds |
|---|---|---|
| `strings.dfy` | `Strings` | Python's `str.strip`, `split` and `join`, `sorted(set(...))` on strings, and the first-occurrence de-duplication of `dict.fromkeys` |
| `seqs.dfy` | `Seqs` | A stable sort by an integer key, like Python's `list.sort(key=...)` and JavaScript's `Array.prototype.sort` |
| `api.dfy` | `Api` | What both providers share: metric metadata, one collection attempt, series sampling, events, the ref-prefix filter and the event generator |
| `backend.dfy` | `Backend` | The backend tree, the event pool, `_gen_events`, `collect`, `data`, `_parse_ref_ids`, and the report's ref prefixes and window |
| `route.dfy` | `Route` | How an event id travels through the path of `PUT /api/events/<id>` |
| `store.dfy` | `Store` | The `EVENTS` list and the `EVENT_SEQ` counter, as the class `EventStore`, with the create, update, events and report handlers |
| `mock.dfy` | `Mock` | The mock tree, `getDevices`, `getMetrics`, `collect`, `getData`, `getEvents` and `toMetricId` |

How inputs reach the model:

- Random choices become parameters:
  - A collection attempt takes three reals in [0, 1).
  - An event draw is an `EventDraw`: an offset into the window and indices
    into the categories, the titles and the pool.
  - A series value is an opaque function of the id, its position and the
    sample index.
- The clock is the parameter `now`.
- Event times are integer milliseconds.

## Model

| member | source | states |
|---|---|---|
| `Strings.StripSlice` | backend/app.py:80 | `str.strip()` keeps a contiguous slice of its input and drops only whitespace before and after it. |
| `Strings.StripEnds` | backend/app.py:80 | The stripped text neither starts nor ends with whitespace. |
| `Strings.StripEmpty` | backend/app.py:80 | The stripped text is empty iff the input is all whitespace. |
| `Strings.StripIdempotent` | backend/app.py:80 | Stripping twice equals stripping once. |
| `Strings.JoinSplit` | backend/app.py:333-335 | `'.'.join(s.split('.'))` gives back `s`. |
| `Strings.SplitJoin` | backend/app.py:333-335 | Splitting a join of parts that hold no separator gives back the parts. |
| `Strings.SortedOf` | backend/app.py:336 | `sorted(set)` yields a strictly increasing sequence holding exactly the elements of the set. |
| `Strings.DedupKeepsFirstOccurrenceOrder` | backend/app.py:80 | `list(dict.fromkeys(xs))` keeps the elements in the order of their first occurrence. |
| `Seqs.SortBy` | backend/app.py:241 | Sorting by event time yields a permutation of the input. |
| `Seqs.SortBySorted` | backend/app.py:241 | The sorted output is in ascending key order. |
| `Seqs.InsertBySorted` | backend/app.py:241 | Inserting into a sorted sequence keeps it sorted. |
| `Seqs.SortByStable` | src/services/mock.ts:163 | The sort is stable: elements with equal keys keep their input order. |
| `Api.Attempt` | backend/app.py:176-186 | An attempt succeeds iff its first draw exceeds 0.15. On success the value lies in [50, 100], the duration is 80 to 259 ms, and there is no reason. On failure the quality is `timeout`, the reason is `mock_timeout`, there is no value, and the duration is 5000 ms. |
| `Api.CountsPartition` | backend/app.py:187-188 | The good and not-good counts add up to the number of details. |
| `Api.SamplesOf` | backend/app.py:214-217 | The inner loop yields `points + 1` samples (none when `points < 0`), sample `i` at `start + i*step`. |
| `Api.BuildSeries` | backend/app.py:209-218 | The output has a key exactly for each requested id. A repeated id keeps the series of its last occurrence. |
| `Api.SeriesTimes` | backend/app.py:215 | With a positive step, sample times rise strictly from `start`. |
| `Api.StepBound` | backend/app.py:206-207 | With `step = max(1000, span // 300)`, a non-negative span holds at most 300 steps, so a series has at most 301 samples. |
| `Api.LastIndex` | backend/app.py:218 | The position of the last occurrence of an id. |
| `Api.RefMatch` | backend/app.py:83-86 | `_ref_match`: an empty prefix list admits every ref. Otherwise a ref is admitted iff one of the prefixes starts it. The mock's filter at src/services/mock.ts:161 is the same test. |
| `Api.Matching` | backend/app.py:141 | The filter keeps exactly the events inside `[start, end]` whose ref passes the prefix test, each no more often than it occurs. |
| `Api.MatchingCounts` | backend/app.py:233 | Every matching event is kept exactly as often as it occurs, and every other event is dropped. |
| `Api.MatchingAppend` | backend/app.py:233 | Filtering a concatenation filters each part in turn, so the kept events stay in input order. |
| `Api.Span` | backend/app.py:107 | The span is `end - start` when that is at least 1, and 1 otherwise. |
| `Api.EventCount` | backend/app.py:107-109 | `max(12, min(50, span // 60000))` lies between 12 and 50. |
| `Api.CandidatesAt` | backend/app.py:123-136 | Candidate `i` is the event generated from draw `i`: the draw's offset, category, title and pool entry, with id `firstId + i*idStep`. |
| `Api.GeneratedCategory` | backend/app.py:110-125 | A generated event carries one of the four categories and a title listed for that category. |
| `Api.CandidatesShape` | backend/app.py:123-136 | Candidate `i` has id `firstId + i*idStep`, a time in `[start, start + span)`, a ref from the pool and no description. |
| `Api.DrawCandidates` | backend/app.py:122-137 | The drawing loop builds the candidate list, one event per draw. |
| `Api.FilterSortKeeps` | backend/app.py:141-142 | Filtering then sorting gives a time-sorted sub-multiset of the candidates. It holds exactly the candidates inside the window that pass the ref filter. |
| `Backend.PoolRefsUnderDevices` | backend/app.py:89-103 | Every ref in the pool is a device id, or a device id followed by a dot. |
| `Backend.AxisSetHoldsAxisIds` | backend/app.py:93-97 | The set of axis ids holds exactly the non-empty `axisId`s of the metrics. |
| `Backend.MetricRefsAndAxes` | backend/app.py:94-101 | The metric loop appends `device.metricKey` for each metric whose stripped id is non-blank, in order. It collects exactly the non-empty axis ids. |
| `Backend.AxisRefsOf` | backend/app.py:101-102 | The axis loop appends one `device.axis` per axis, in the given order. |
| `Backend.EventPool` | backend/app.py:89-103 | `_event_pool` builds, per device: its id, then `device.metricKey` for each metric with a non-blank stripped id, then `device.axis` for each axis in sorted order. |
| `Backend.GeneratedEvents` | backend/app.py:106-143 | `_gen_events` draws `clamp(span // 60000, 12, 50)` candidates with ids `-(i+1)`. It returns exactly those in the window that pass the ref filter, sorted by time. Each returned event has a negative id, a ref from the pool and no description. |
| `Backend.GenEvents` | backend/app.py:106-143 | The method computes the specification used by `GeneratedEvents`. |
| `Backend.MergedEvents` | backend/app.py:233-241 | The merged answer is sorted by time and holds only events in the window that pass the filter. It holds every such stored event. A generated event appears iff no stored event carries its id. |
| `Backend.MergedTies` | backend/app.py:240-241 | At equal times, stored events come before generated ones, each group in its own order. |
| `Backend.Collect` | backend/app.py:170-196 | One attempt per target, in order. The success count counts the good details, and the success and failure counts add up to the number of targets. |
| `Backend.DataSeriesShape` | backend/app.py:205-217 | A series has `span // step + 1` samples, at most 301. Sample `i` is at `start + i*step`. Times rise strictly and stay within `[start, start + span]`. |
| `Backend.Data` | backend/app.py:199-220 | A start or end of 0 falls back to its default. The output has one key per distinct id, mapped to the series of the id's last occurrence. |
| `Backend.ParseRefIds` | backend/app.py:74-80 | The parsed ref ids are distinct, non-empty and stripped. They are exactly the stripped non-blank comma pieces of the raw values. |
| `Backend.ParsedRefIdMembers` | backend/app.py:74-80 | `y` is a parsed ref id iff it is the non-blank strip of a comma piece of some `refIds` or `refId` value. |
| `Backend.ParsedRefIdsOrder` | backend/app.py:76-80 | Ids given through `refIds` come before ids given only through `refId`. |
| `Backend.RefPrefixShape` | backend/app.py:333-335 | A metric has a ref prefix iff it contains a dot. The prefix is the metric up to its second dot and has exactly two components. |
| `Backend.MetricPrefixMembers` | backend/app.py:332-335 | A prefix is collected from a chart's metrics iff some metric of the chart has it as its two-component prefix. |
| `Backend.ReportRefIdsChoice` | backend/app.py:325-336 | With a device id, the report filters by exactly `[deviceId]`. Otherwise it filters by the sorted, distinct two-component prefixes of the chart metrics that have at least two components. |
| `Backend.ReportPrefixes` | backend/app.py:323-336 | The report's loops compute those prefixes. Without a device id they also compute the metric total. |
| `Backend.ReportWindow` | backend/app.py:313-321 | A zero start becomes now minus ten minutes and a zero end becomes now. A non-zero bound is kept, even when `start >= end`. |
| `Route.DigitsValueOfNatText` | backend/app.py:271 | Reading back the decimal digits of `n` gives `n`. |
| `Route.UnsignedRouteId` | backend/app.py:271 | Flask's `<int:...>` matches a segment iff the segment is a non-empty run of digits. The matched value is never negative. |
| `Route.NegativeIdsUnroutable` | backend/app.py:271 | The path the client builds for a negative id matches no route. |
| `Route.SignedRouteId` | backend/app.py:271 | A signed route matches digits with an optional leading `-`. |
| `Route.SignedRouteRoundTrip` | backend/app.py:271 | Under the signed route, every id the client writes is routed back to itself. |
| `Route.RoutesAgreeOnNonNegative` | backend/app.py:271 | Both routes read the same id for every non-negative id. |
| `Store.CreateCategory` | backend/app.py:251 | The category of a created event is non-empty and stripped. It is `other` when the category is missing, null or blank, and the stripped value otherwise. |
| `Store.CreateOutcomeCases` | backend/app.py:248-268 | A create is refused with status 400 and the fixed message iff the title or the `ref_id` is missing, null or blank. Otherwise status 201, and the item carries the counter as id, stripped non-empty title and ref, the description as given, the given time or now, and the category. |
| `Store.PatchFields` | backend/app.py:292-306 | An update keeps the id and every absent field. A present title, ref or category is set to its stripped text, with null becoming `"None"`. A present description is set as given, null included. A given event time replaces the old one. |
| `Store.PatchIdempotent` | backend/app.py:292-306 | An empty body changes nothing, and applying the same update twice equals applying it once. |
| `Store.IndexOfId` | backend/app.py:276 | The position of the first stored event with the id, or -1 iff there is none. |
| `Store.OverrideFilterInert` | backend/app.py:236-238 | When every stored id is non-negative, the override filter drops no generated event. |
| `Store.OverrideReplacesGenerated` | backend/app.py:236-241 | Once a stored event in the window carries a generated event's id, the events answer shows the stored one and not the generated one. |
| `Store.EventStore.constructor` | backend/app.py:52-53 | The table starts empty, with the counter at 1000. |
| `Store.EventStore.CreateEvent` | backend/app.py:245-268 | A refused create changes nothing. An accepted one appends exactly the new item, with the old counter as id, and advances the counter by one. Since the counter starts at 1000, no stored id becomes negative. |
| `Store.EventStore.FindIndex` | backend/app.py:276 | The search returns the first matching position, or -1. |
| `Store.EventStore.UpdateEvent` | backend/app.py:271-307 | A stored id has exactly that entry replaced by its patch. An unknown id appends a fresh event carrying that id. The counter never changes. |
| `Store.EventStore.PutEvent` | backend/app.py:271-273 | Under the signed route, any integer segment reaches the update with that id. A stored id has its first entry replaced by its patch; an unknown id appends a fresh event. A non-integer segment changes nothing. |
| `Store.EventStore.PutEventUnsigned` | backend/app.py:271-273 | Under the route as declared, only a run of digits reaches the update, with the same effect as above. No stored id becomes negative. |
| `Store.EventStore.OverridesNothing` | backend/app.py:236-238 | While no stored id is negative, the override filter drops no generated event. |
| `Store.EventStore.Events` | backend/app.py:223-242 | The events answer is the merge of the stored and generated events for the parsed ref ids. The window defaults to the last hour. |
| `Store.EventStore.Report` | backend/app.py:310-360 | The report returns its window, the chart count, the total number of metrics over all charts, and the size of the merged events answer for the derived ref ids. |
| `Mock.FindDevice` | src/services/mock.ts:86 | `tree.find` returns the first device with the id, or none iff no device has it. |
| `Mock.MockTreeIdsResolve` | src/services/mock.ts:9-75 | The mock tree holds three devices with distinct ids, so looking up each listed id finds that very device. |
| `Mock.GetMetricsUnknown` | src/services/mock.ts:86-87 | `getMetrics` returns an empty list for a device id that no device of the tree carries. |
| `Mock.ListedDevicesResolve` | src/services/mock.ts:77-79 | `getDevices` lists one `{id, name}` per device, in tree order. Every listed id is found again by the lookup. |
| `Mock.FlattenMembers` | src/services/mock.ts:88 | A metric is in the flattened list iff some axis lists it. |
| `Mock.FlattenAppend` | src/services/mock.ts:88 | Flattening keeps axis order: the metrics of earlier axes come first. |
| `Mock.GetMetricsMembers` | src/services/mock.ts:85-89 | For a known device `getMetrics` returns exactly the metrics of the axes of the first device with that id. |
| `Mock.Collect` | src/services/mock.ts:91-108 | Detail `i` is the attempt for target `i`, so the details are in target order. The good and failed counts add up to the number of targets. A detail is good iff it has a value. A failed detail has reason `mock_timeout` and a duration of 5000 ms. |
| `Mock.MockSeriesShape` | src/services/mock.ts:111-123 | When `end < start`, every series is empty. Otherwise a series has `floor(span/step) + 1` samples, at most 301. Sample `i` is at `start + i*step`. Times rise strictly and never pass `end`. |
| `Mock.GetData` | src/services/mock.ts:110-126 | The output has one key per distinct id, mapped to the series of the id's last occurrence. |
| `Mock.ToMetricIdSplit` | src/services/mock.ts:166-168 | Splitting `device.axis.metric` on `'.'` gives back the three parts when none contains a dot. |
| `Mock.AxesPoolMembers` | src/services/mock.ts:132-137 | A device's axis refs are exactly its `device.axis` refs and its `device.axis.metric` ids. |
| `Mock.MockPoolMembers` | src/services/mock.ts:129-138 | The pool holds exactly the device ids, the axis refs and the metric ids of the tree. |
| `Mock.PushAxis` | src/services/mock.ts:133-136 | The loop pushes an axis ref followed by each of its metric ids. |
| `Mock.BuildPool` | src/services/mock.ts:129-138 | The nested loops build the pool: each device, then each axis ref immediately followed by that axis's metric ids. |
| `Mock.MockEventsProperties` | src/services/mock.ts:139-163 | `getEvents` draws `clamp(floor(max(1, end - start)/60000), 12, 50)` candidates with ids `1..count`. The result is a time-sorted sub-multiset of them. It holds exactly the candidates in `[start, end]` that pass the ref filter, each with a ref from the pool. |
| `Mock.GetEvents` | src/services/mock.ts:128-164 | The method computes the specification used by `MockEventsProperties`. |

## Left out

- Flask routing, JSON decoding and encoding, CORS, `/api/health`, `app.run`, and the wall clock. The clock is the parameter `now`.
- Store.EventStore: handlers are modelled as running one at a time. The threaded development server started by `app.run` can interleave two requests: two creates can then share an id, and two updates of one unknown id can append two entries.
- The backend's `/api/devices`, `/api/metric-tree` and `/api/metrics` handlers, and the mock's `getMetricTree`. They serve the backend tree as it is; the flat metric list of `/api/metrics`, with ids such as `Z.MA`, is not modelled.
- MD5 seeds and the concrete random streams (`random.Random`, `Math.random`). Every random choice is a caller-supplied draw.
- The backend draws collection values from one shared stream in an interleaved order. The model gives each target its own triple of draws.
- The mock's `collect` likewise draws one `Math.random` for a failed target and three for a good one. The model gives each target a triple and ignores the two value draws on failure.
- Floating point:
  - `math.sin` noise, `round(..., 2)` and `toFixed(2)` are left out, so sample values are an opaque function.
  - `_parse_ms`'s `int(float(v))` is left out: query bounds arrive as integers or as missing.
- ISO-8601 formatting and parsing:
  - Event times are integer milliseconds, and both providers sort numerically.
  - The backend actually sorts its merged list by the ISO string. `isoformat` omits the fraction when the milliseconds are zero, so two events within the same second can sort differently from their times. Stored times also keep the text they were given (three fraction digits from a browser's `toISOString`, six from `_now_iso`), while generated times carry six digits. At equal milliseconds the string order can then put a generated event before a stored one, where `Backend.MergedTies` puts the stored one first. The backend's `to_ms` (backend/app.py:138-139, 230-231, 338-339) also truncates the float `timestamp() * 1000` to an integer, so for some millisecond values it gives one less than the event's time. The inclusive window test can then drop an event at exactly `start` or keep one 1 ms past `end`. The model's window test uses the exact integer time.
- Store.EventStore.UpdateEvent: an event time that is null or blank in an update body is treated like a missing one. The backend would store the text `"None"` or `""`.
- Store.PatchFields: likewise, a null or blank event time keeps the old time. Only the title, ref and category turn null into `"None"`.
- Stored event times that do not parse: `create_event` keeps any non-blank `event_time` text, and `update_event` can store `"None"` or `""`. After that, `datetime.fromisoformat` fails in the events and report handlers, and both answer with a server error. Event times here are integer milliseconds, so `EventStore.Events` and `EventStore.Report` always answer. This error path is outside the model.
- Store.EventStore.Report: the report's summary string is not built; only the numbers in it are.
- Non-string JSON values where strings are expected (such as a numeric title) are not modelled: text fields are strings, missing, or null.
- `src/services/request.ts` (fetch, abort timer, base URL) and `vite.config.ts` are not part of this model.
- Route.UnsignedRouteId: digits are ASCII `0`-`9`; the `\d+` pattern of Werkzeug's integer converter also matches other Unicode decimal digits.
- The mock's pool interleaves each `device.axis` ref with that axis's metric ids, as the code pushes them. It does not list all axis refs before all metric ids.

## Findings

| source | as written | input that shows it | evidently intended | confidence | as-written member | corrected member |
|---|---|---|---|---|---|---|
| backend/app.py:271 | The route `<int:event_id>` accepts only non-negative integers. Generated events carry ids `-1, -2, ...` (backend/app.py:129), and the client puts the id into the path as `/events/-3`. | Editing generated event `-3`: `PUT /api/events/-3` matches no route, so `update_event` never runs. The override filter at backend/app.py:236-238 then never drops anything. | Editing a generated event stores an override under its id (backend/app.py:279-280), so the route must accept negative ids (`<int(signed=True):event_id>`). | not executed | `Route.NegativeIdsUnroutable` | `Route.SignedRouteRoundTrip` |
