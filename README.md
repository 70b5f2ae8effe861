# Smart-home energy query service — a verified model

This project models the core of a smart-home energy service. Users register household devices. Each device posts energy readings over time. A user asks about them in two ways:

- through REST endpoints: register a device, post a reading, list a device's readings, summarise a device's energy;
- through a free-text question endpoint ("How much energy did my fridge use yesterday?", "top devices consuming the most").

In the question endpoint, a rule-based interpreter turns the question into a structured query: an intent, a device slug and a time window. The service answers with either one device's total and hourly series or a ranking of the user's five highest-consuming devices.

The model is written in Dafny, one module per concern:

| module | file | what it holds |
|---|---|---|
| `Wrappers` | `wrappers.dfy` | `Option` and `Result` |
| `Seqs` | `seqs.dfy` | order-preserving filter, first-match scan, distinctness |
| `Ranking` | `ranking.dfy` | descending stable sort and "top k" |
| `Text` | `text.dfy` | ASCII lower-casing, substring occurrence and whitespace stripping |
| `Instants` | `instants.dfy` | instants in UTC seconds, midnight, hour truncation, windows |
| `Nlp` | `nlp.dfy` | the query interpreter and the older entity extractor |
| `Models` | `models.dfy` | devices, readings, the database tables, user-scoped lookups |
| `Aggregation` | `aggregation.dfy` | window filtering, totals, the hourly series, the device ranking |
| `ChatViews` | `chat_views.dfy` | the question endpoint |
| `TelemetryViews` | `telemetry_views.dfy` | the device endpoints |

## How the model represents the system

- **Instants** are integer seconds since the Unix epoch, in UTC.
  - `Midnight(t)` and `HourOf(t)` truncate with a Euclidean remainder, so they floor for negative instants too.
  - A window has an optional start and an optional end.
  - **Both bounds are inclusive**, because every filter in the views uses `timestamp__gte` and `timestamp__lte`.
- **Energy** is a natural number in a fixed-point unit, so sums are exact.
- **The current instant is a parameter.** Each operation that reads the clock takes it as an argument: `now` for the query interpreter, `today` (a day number) for the entity extractor.
- **Date-time parsing is a parameter.** `parse_datetime` becomes a function parameter `parse: string -> Option<Instant>`.
- **Text** is `seq<char>`. Lower-casing maps `A`–`Z` only. Stripping, as the serializer does to every character field, cuts the characters Python's `str.isspace` accepts.
- **Keyword tables** are ordered sequences. `DEVICE_KEYWORDS` and `RELATIVE_KEYWORDS` keep their source order, and the first match in that order wins. One consequence is proved, `Nlp.WashingMachineReadsAsAc`. The air conditioner's form "ac" occurs inside "machine", so any text that mentions a washing machine is read as the air conditioner.
- **Intent keywords.** The code tests `"device" in t or "devices" in t`. The second test adds nothing, and `DetectIntent` is proved equal to the predicate `AsksForRanking`, which tests "device" alone.
- **The database** is a class `Models.Store`:
  - fields: the device table, the reading table and the next primary keys;
  - invariant `Valid()`: unique device keys, unique reading keys, every key below the next one, `(user, slug)` unique, every reading's device exists.

  The creating endpoints modify the store. The reading endpoints only read it.
- **Two lookups.**
  - `get_object()` over the user-scoped queryset is the lookup `FindOwned`. It finds the user's device with that primary key and answers `None`, a 404, otherwise.
  - `Device.objects.get(user=..., slug=...)` is `FindDevice`.
- **The hourly series** (`TruncHour`, values/order_by/annotate) has two parts:
  - a fold, `HourlySeries`, into a strictly ascending sequence of `(hour, energy)` entries;
  - a relational specification through `Hours`, `KwhAt` and `HourTotal`.
- **The device ranking** groups the user's readings per device. It keeps only devices with at least one reading in the window, sorts by total in descending order and keeps the first five.

## Model

| member | source | states |
|---|---|---|
| Text.Lower | backend/chat_service/nlp.py:93 | lower-casing keeps the length and maps each character to its lower-case form |
| Text.LowerIdempotent | backend/chat_service/nlp.py:93 | lower-casing a lower-cased text changes nothing |
| Text.Strip | backend/telemetry_service/serializers.py:4-7 | the stripped text is the run of the input after its leading whitespace, neither starting nor ending with whitespace, with only whitespace cut on either side |
| Text.StripIdempotent | backend/telemetry_service/serializers.py:4-7 | stripping a stripped text changes nothing |
| Text.StripPadding | backend/telemetry_service/serializers.py:4-7 | whitespace padding around a text that neither starts nor ends with whitespace is exactly what stripping removes |
| Instants.Midnight | backend/chat_service/nlp.py:66 | the start of the UTC day: at or before the instant, less than a day before it, on a day boundary |
| Instants.HourOf | backend/chat_service/views.py:56 | the start of the UTC hour: at or before the instant, less than an hour before it, on an hour boundary |
| Instants.MidnightDayBefore | backend/chat_service/nlp.py:62-63 | the midnight of the day before `now` is exactly one day before the midnight of `now`'s day |
| Nlp.ExtractDeviceSlug | backend/chat_service/nlp.py:91-98 | `None` exactly when no surface form of any known device occurs in the lower-cased text; otherwise the slug of the first device in table order with a form that occurs, and always a known slug |
| Nlp.Resolve | backend/chat_service/nlp.py:60-73 | every resolved window is ordered and ends no later than `now`; "yesterday" is the whole previous UTC day, ending at this day's midnight; "today" runs from midnight to `now`; the week phrases span seven days up to `now`; "last 24 hours" spans 24 hours up to `now` |
| Nlp.ExtractTimeRange | backend/chat_service/nlp.py:100-106 | both bounds are present or both absent; absent exactly when no phrase occurs; otherwise the window of the first phrase in table order that occurs, resolved at `now` |
| Nlp.DetectIntent | backend/chat_service/nlp.py:108-115 | the intent is the ranking exactly when the text says "top", "device" and one of "most", "highest" or "consum"; the usage total otherwise |
| Nlp.ParseQuery | backend/chat_service/nlp.py:117-133 | the intent, slug and window of the three extractors: ranking iff asked for, the slug known and absent iff no device is named, the window both-or-neither and never past `now` |
| Nlp.ParseQueryIgnoresCase | backend/chat_service/nlp.py:117-133 | a text and its lower-cased form give the same structured query |
| Nlp.WashingMachineReadsAsAc | backend/chat_service/nlp.py:76-81 | by first-match order, any text that says "machine" (so "my washing machine") is read as the air conditioner |
| Nlp.NoAirConditioner | backend/chat_service/nlp.py:77 | a text without the letter "a" names no form of the air conditioner |
| Nlp.FridgeWithoutA | backend/chat_service/nlp.py:76-78 | a text that says "fridge" and has no "a" is about the fridge |
| Nlp.LowerFridgeSpellings | backend/chat_service/nlp.py:93 | upper-case and mixed-case spellings of the fridge lower-case to "fridge" and "my fridge" |
| Nlp.FridgeInAnyCase | backend/chat_service/nlp.py:91-98 | "My Fridge", "my fridge" and "FRIDGE" are all read as the fridge |
| Nlp.YesterdayWins | backend/chat_service/nlp.py:100-106 | any text that says "yesterday" gets the previous full UTC day, whatever other phrases it contains |
| Nlp.DevicesDistinct | backend/chat_service/nlp.py:140 | no appliance name of the older extractor is listed twice |
| Nlp.ExtractEntities | backend/chat_service/nlp.py:142-187 | the devices are exactly the listed names that occur, in list order, without repeats; both dates are always present, ordered and not after today; the start and end follow the today / yesterday / last week / last month precedence, with the fallback to today |
| Seqs.Filter | backend/chat_service/views.py:44 | a filter keeps at most the input, only matching elements, and every matching element |
| Seqs.FilterFilter | backend/chat_service/views.py:44-48 | two filters applied in turn are one filter by the conjunction of their conditions |
| Seqs.FilterKeysDistinct | backend/telemetry_service/views.py:14-15 | filtering a sequence whose keys are distinct keeps them distinct |
| Seqs.FirstIndex | backend/chat_service/nlp.py:94-97 | the first index whose element matches, or the length when none does; no earlier element matches |
| Ranking.Top | backend/chat_service/views.py:80 | at most `k` elements, largest key first, drawn from the input, and all of them when there are at most `k` |
| Ranking.TopIsTop | backend/chat_service/views.py:80 | an element left out of the top `k` has a key no larger than that of any element kept |
| Models.VisibleDevices | backend/telemetry_service/views.py:14-15 | the devices a request sees are exactly the requesting user's devices |
| Models.FindDevice | backend/chat_service/views.py:39-42 | the found device is the user's and has the slug; `None` exactly when the user has no device with that slug, whoever else has one |
| Models.FindOwned | backend/telemetry_service/views.py:22 | the found device is the user's and has the key; `None`, a 404, exactly when the user has no device with that key |
| Models.FindDeviceIsTheDevice | backend/telemetry_service/models.py:9-10 | with `(user, slug)` unique, the lookup by slug finds the one device of that user with that slug |
| Models.FindDeviceSeesOnlyOwner | backend/chat_service/views.py:40 | the lookup by slug gives the same answer over the whole table as over the requesting user's devices |
| Models.VisibleDevicesUniqueIds | backend/telemetry_service/views.py:14-15 | the requesting user's devices have distinct primary keys when the whole table does |
| Models.Store.Valid | backend/telemetry_service/models.py:9-16 | the database constraints: unique primary keys for devices and readings, below the next key to be handed out, `(user, slug)` unique, and every reading's device present |
| Models.Store.constructor | backend/telemetry_service/models.py:4-24 | an empty database satisfies the key and uniqueness constraints |
| Aggregation.FilterWindow | backend/chat_service/views.py:44-48 | narrowing by an optional start and then an optional end is the single inclusive window filter |
| Aggregation.Total | backend/chat_service/views.py:50 | the sum of the energies (`Sum(...) or 0`): no reading exceeds it, and it is 0 exactly when no reading has energy |
| Aggregation.TotalOfFilterAtMost | backend/chat_service/views.py:50 | narrowing a query never raises its total |
| Aggregation.HourlySeries | backend/chat_service/views.py:55-60 | the series has at most one entry per reading and is empty exactly when there are no readings; its full specification is `HourlySeriesCorrect` |
| Aggregation.HourlySeriesCorrect | backend/chat_service/views.py:55-60 | the series has strictly ascending hours, an entry for exactly the hours that contain a reading, each hour's energy that of its readings, and entries that add up to the total |
| Aggregation.SeriesEntries | backend/chat_service/views.py:55-60 | every entry holds exactly the energy of its hour and starts on the hour |
| Aggregation.TwoHoursTwoEntries | backend/chat_service/views.py:55-60 | readings at 00:30 and 01:10 give two entries, at 00:00 and 01:00, and the total is their sum |
| Aggregation.Groups | backend/chat_service/views.py:77-79 | at most one group per listed device, each for a device with a reading; its full specification is `GroupsSound` and `GroupsComplete` |
| Aggregation.GroupsSound | backend/chat_service/views.py:77-79 | every group is the total of a listed device that has a reading |
| Aggregation.GroupsComplete | backend/chat_service/views.py:77-79 | every listed device with a reading has a group |
| Aggregation.RankDevices | backend/chat_service/views.py:77-80 | exactly five rows, or every group when there are at most five; largest total first; each the total of one of the user's devices with a reading |
| Aggregation.RankDevicesIsTop | backend/chat_service/views.py:77-80 | a device left out of the ranking used no more energy than any device in it |
| Aggregation.RankDevicesAllWhenFew | backend/chat_service/views.py:77-80 | when at most five devices have readings, every one of them is ranked |
| Aggregation.RankDevicesOneRowPerDevice | backend/chat_service/views.py:77-79 | no device appears twice in the ranking |
| ChatViews.Status | backend/chat_service/views.py:23-42 | 404 for an unknown device, 400 for a missing question or device |
| ChatViews.ParseBounds | backend/chat_service/views.py:9-12 | a bound is present exactly when its parameter is given, not empty and parses, and is then its parse |
| ChatViews.Post | backend/chat_service/views.py:17-89 | a missing or empty question is refused; each explicit bound replaces the inferred one on its own; a usage question without a device is refused; a usage question about a slug the user does not own is a 404; otherwise the device's total and hourly series over the window, whose entries add up to the total; the device found is the only one of the user with that slug; a ranking question gets the ranking of the user's devices over the user's readings in the window, at most five rows and one per device |
| ChatViews.UsageAnswer | backend/chat_service/views.py:44-68 | the usage reply: the device, the window, the total of the device's readings in the window and their hourly series, which adds up to the total |
| ChatViews.RankingAnswer | backend/chat_service/views.py:71-89 | the ranking reply: the window and the ranking of the user's devices over the user's readings in it, at most five rows, one per device |
| ChatViews.FoundDeviceIsUnique | backend/chat_service/views.py:40 | with `(user, slug)` unique, the device the lookup finds is the only one of the user with that slug |
| ChatViews.RankingRowsDistinct | backend/chat_service/views.py:77-80 | with device keys unique, the ranking of a user's devices names each device at most once |
| ChatViews.RankedReadingsIgnoreOthers | backend/chat_service/views.py:71 | readings of devices the user does not own never reach the ranking |
| ChatViews.RankingIgnoresOtherUsersDevices | backend/chat_service/views.py:71 | other users' devices change neither the devices ranked nor the readings grouped |
| TelemetryViews.Status | backend/telemetry_service/views.py:20-39 | 404 for a device the user does not own, 400 for an invalid payload, 500 otherwise |
| TelemetryViews.PerformCreate | backend/telemetry_service/views.py:17-18 | the name and slug are stripped of surrounding whitespace first; a stripped name that is blank, longer than 100 characters or holds a null character, or an invalid stripped slug, is a 400; a second device of the user with the same slug is a 500 and changes nothing; otherwise the device is stored under the next key, owned by the requester and found by its slug, and the constraints still hold |
| TelemetryViews.AppendDeviceKeepsConstraints | backend/telemetry_service/models.py:9-10 | a new device under the next key, with a slug its owner does not have yet, keeps keys and `(user, slug)` unique and every reading's device present |
| TelemetryViews.PaddedSlugIsStripped | backend/telemetry_service/views.py:17-18 | a valid slug padded with whitespace is accepted and stored without the padding |
| TelemetryViews.FindDeviceAppend | backend/telemetry_service/views.py:17-18 | a newly added device is what the lookup by its slug finds |
| TelemetryViews.PostTelemetry | backend/telemetry_service/views.py:20-29 | another user's device is a 404; a payload without a timestamp or an energy is a 400 and changes nothing; otherwise the reading is stored for the device in the URL under the next key, and the constraints still hold |
| TelemetryViews.Bound | backend/telemetry_service/views.py:33-38 | a missing or empty parameter sets no bound; a non-empty one that does not parse is a server error; otherwise the bound is its parse |
| TelemetryViews.QueryWindow | backend/telemetry_service/views.py:33-38 | the window is the two bounds, or an error when either bound is one |
| TelemetryViews.Listing | backend/telemetry_service/views.py:31-39 | exactly 1000 readings, or all of the window's when there are at most 1000; newest first; each a stored reading of the device inside the window, and each stored reading listed at most once |
| TelemetryViews.ListingDropsOldest | backend/telemetry_service/views.py:39 | a reading of the device in the window that is left out is no newer than any reading listed |
| TelemetryViews.ListingCompleteBelowCap | backend/telemetry_service/views.py:39 | with at most 1000 readings in the window, the listing holds all of them |
| TelemetryViews.ListTelemetry | backend/telemetry_service/views.py:20-39 | another user's device is a 404, an unparsable bound a 500, otherwise the listing of the device over the window |
| TelemetryViews.PostedReadingCounted | backend/telemetry_service/views.py:41-52 | a posted reading adds its energy to the device's summary over every window that contains its timestamp, and to no other |
| TelemetryViews.OtherDeviceNotCounted | backend/telemetry_service/views.py:46-50 | a reading of another device changes nothing in this device's summary |
| TelemetryViews.Summary | backend/telemetry_service/views.py:41-52 | another user's device is a 404, an unparsable bound a 500, otherwise the device's key and its total energy over the window |
| TelemetryViews.SummaryAgreesWithListing | backend/telemetry_service/views.py:31-51 | with at most 1000 readings in the window, the summary's total is the sum over the listed readings |
| TelemetryViews.TotalPermutation | backend/telemetry_service/views.py:51 | the sum of energies does not depend on the order of the readings |
| TelemetryViews.TotalConcat | backend/telemetry_service/views.py:51 | the total of two runs of readings is the sum of their totals |

## Left out

- Authentication and permissions (JWT, `IsAuthenticated`): the requesting user is a parameter. `IsOwner` from `permissions.py` is attached to no view.
- The auth service, URL routing, admin and the management command that seeds demo data: they are outside the modelled core.
- Generic viewset actions other than create: device list, retrieve, update and delete. Listing is `VisibleDevices`, and retrieval is `FindOwned`.
- The commented-out first `parse_query` in `nlp.py` and the unused `DEVICE_PAT` regex: they are dead code.
- Floating point: energies are exact fixed-point naturals.
- Negative energies: the float field would accept them, but naturals cannot hold them.
- `round(total, 4)` and `float(...)` in the replies.
- `datetime.now` and `datetime.today`: they become the `now` and `today` parameters.
- `parse_datetime`: it becomes the `parse` parameter. Its exception for a well-formed but impossible date is the same server error as an unparsable bound in the device actions. In the question endpoint, that exception is not modelled.
- Unicode lower-casing: only ASCII letters are mapped.
- The request's own `device` field on a posted reading: the payload keeps it, but it is never used, as in the code.
- JSON rendering of replies, including ISO formatting of instants.
- `Aggregation.RankDevices`: the order among devices with equal totals is left to the database, so the model fixes one stable order. The contract states the row count, non-increasing totals and that no device left out outranks one kept, not which of several tied devices is kept.
- `TelemetryViews.Listing`: the order among readings with equal timestamps is likewise left to the database. The contract states the count and newest-first order, not which of several readings with the same timestamp is kept at the cap.
- `ChatViews.Post`: the usage reply's `intent` field is implied by the `UsageReply` constructor, not stored. The empty slug, which `not device_slug` would also refuse, cannot come out of the interpreter.
- `Nlp.ExtractEntities`: dates are day numbers, not calendar dates. The code's `not entities["start_date"]` tests for `None` only, because a date object is always true.
