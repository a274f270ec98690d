# NPS survey plugin: a Dafny model

This project models the core of a Net Promoter Score plugin for a help-desk host.

When a ticket is resolved, the plugin queues a survey for the ticket's contact, after checking:

- that the plugin is enabled;
- that the ticket has a contact id and a ticket id;
- a per-contact frequency limit;
- that the contact has no survey pending already.

An hourly sweep sends the surveys that are due, or skips them when throttled, or marks them failed when the mail transport refuses them. A customer answers through a token link. That saves a response and completes the survey.

Responses are kept in a store that:

- upserts by id;
- fills missing keys from a template;
- clamps scores to 0..10;
- answers filtered, newest-first, paginated queries.

Scoring classifies scores into promoters, passives and detractors. From those it computes the NPS, monthly trends and breakdowns by agent, team or category.

Settings are the compiled-in defaults with the stored settings merged over them recursively.

The modules follow the source files:

| module | file | models |
|---|---|---|
| `PhpValues` | `php_values.dfy` | the PHP behaviour the code relies on: `??`, decoded JSON values, `empty()`, the `(int)` and `(string)` casts, `strcmp` order, `rtrim` |
| `Config` | `config.dfy` | `Support/Config.php`: defaults, `all`, `get`, `save` (class `ConfigStore`) |
| `Responses` | `responses.dfy` | `Services/ResponseService.php`: template, `save` (class `ResponseLog`), `query`, `forContact` |
| `Scoring` | `scoring.dfy` | `Services/ScoringService.php`: `classify`, `calculate`, `trend`, the three breakdowns |
| `Surveys` | `surveys.dfy` | `Services/SurveyService.php`: `canSend`, `hasPending`, `queue`, `processQueue`, `submit`, `buildSurveyUrl` (class `SurveyQueue`) |
| `Events` | `events.dfy` | `Handlers/EventHandler.php` and `Config::onActivate` |
| `Plugin` | `plugin.dfy` | the closures that exist only in `Plugin.php`: widget trend direction, ticket-list column, contact sidebar |

`Plugin.php` repeats the services as procedural `esc_nps_*` functions. One member models both copies, and the table names the `Plugin.php` lines next to the service lines.

Each stored file is a `File<T>`:

- `Missing` is an absent file;
- `Corrupt` is a file that does not decode to an array;
- `Json(data)` is a decoded file.

The outside world enters as parameters:

- the clock is `Clock(now, stamp, parse)`: `time()`, `gmdate` of it, and `strtotime` as a function that may fail;
- the mail transport is `NoMailer` or `Mailer(accepts)`;
- random ids and tokens are passed in;
- calendar months for `trend` come from a `calendar` function.

The model keeps three behaviours of the code that look unintended:

- during a sweep, throttling reads the queue as stored, where the survey being processed is still pending. So a due survey for a contact with no responses is skipped whenever a frequency limit is set (`Surveys.FirstTimeContactSkipped`);
- the trend window compares `created_at` strings against `monthEnd . ' 23:59:59'`. Since `'T'` sorts after `' '`, a response created on a month's last day falls outside its month (`Scoring.LastDayDropped`);
- `empty()` treats `"0"` as empty, so a `"0"` filter is ignored, a response id `"0"` counts as new, and a ticket id `0` queues nothing (`Events.EmptyTicketIdIgnored`).

The code departs from a plain reading of the design in one place. Re-saving a response with an existing id but without `created_at` stores `created_at` as `""` (the template fills it), not the old value. `Responses.Prepare` states this.

## Model

| member | source | states |
|---|---|---|
| PhpValues.Lookup | Services/ResponseService.php:126 | `$m[$k] ?? $d` is the stored value when the key is present and not null, the default otherwise |
| PhpValues.RTrim | Services/SurveyService.php:212 | `rtrim` leaves a prefix of the string that does not end in the character, and drops only that character |
| PhpValues.StrLeqTotal | Services/ResponseService.php:119-121 | `strcmp` order is total (so the newest-first sort is defined for every store) |
| PhpValues.StrLeqTrans | Services/ResponseService.php:119-121 | `strcmp` order is transitive |
| PhpValues.StrLeqAntisym | Services/ResponseService.php:119-121 | two strings each `strcmp`-below the other are equal |
| PhpValues.StrLeqCommonPrefix | Services/ScoringService.php:109-112 | strings with a common prefix are ordered by their first differing character (used for the month window) |
| PhpValues.IntRenderingEmpty | Handlers/EventHandler.php:26-33 | the `(string)` rendering of an int is `empty()` exactly when the int is 0 |
| Config.Replace | Support/Config.php:56 | `array_replace_recursive` on two values: the replacement wins unless both are arrays, whose merged keys are the union of both |
| Config.Merge | Support/Config.php:56 | the merge of two arrays has the keys of both |
| Config.MergeAt | Support/Config.php:56 | the merged value under each key: recursive merge when both have it, otherwise the side that has it |
| Config.All | Support/Config.php:43-57 | every default key is present; a missing file or one that is not an array gives the defaults (also Plugin.php:68-82) |
| Config.Get | Support/Config.php:62-66 | `get(k, d)` is the merged value, or `d` when the key is absent or null |
| Config.ReplaceSelf | Support/Config.php:56 | merging a value over itself gives it back |
| Config.ReplaceIdempotent | Support/Config.php:56 | merging over the same base twice equals merging once |
| Config.StoredValuesWin | Support/Config.php:56 | every default key is present, stored non-array values replace the defaults, absent keys keep the default, and a stored `branding` array is merged key by key |
| Config.SaveThenLoad | Support/Config.php:71-81 | what `save` writes is read back unchanged by `all` (also Plugin.php:87-97) |
| Config.SaveRevertsOmittedKeys | Support/Config.php:77 | after `save($config)`, a default key that `$config` omits reads as its default, since the merge is over the defaults and not over the previous settings |
| Config.DefaultSettings | Support/Config.php:25-38 | with no settings file: a 24-hour delay, a 90-day limit, enabled, an empty `branding.logo_url` (also Plugin.php:46-59) |
| Config.ConfigStore.Settings | Support/Config.php:43-57 | the settings hold every default key |
| Config.ConfigStore.Save | Support/Config.php:71-81 | the file becomes the merge of the input over the defaults, and the settings read back as exactly that |
| Responses.Prepare | Services/ResponseService.php:78-87 | the saved record has every template key. An empty id (including `"0"`) gets the fresh id and `created_at = now`; otherwise the id is kept and `created_at` is the input's or `""`. The score is clamped to 0..10 and a null score becomes 0. Absent keys take `""` (also Plugin.php:166-187) |
| Responses.Upsert | Services/ResponseService.php:90-101 | the saved record is in the store. If a record with its id exists, the first such record is replaced in place and the length is kept; otherwise it is appended (also Plugin.php:188-196) |
| Responses.UpsertIdempotent | Services/ResponseService.php:90-101 | saving the same record twice leaves the store as saving it once |
| Responses.ResaveKeepsRecord | Services/ResponseService.php:78-87 | re-saving a saved record writes it back unchanged |
| Responses.InsertKeepsOrder | Services/ResponseService.php:119-121 | inserting into a newest-first list keeps it newest first |
| Responses.SortNewestFirst | Services/ResponseService.php:119-121 | the `usort` result is newest first by `strcmp` of `created_at` and a permutation of the store |
| Responses.Select | Services/ResponseService.php:124-166 | every kept record matches every non-empty filter, and each matching record is kept as often as the store holds it |
| Responses.SelectAppend | Services/ResponseService.php:124-166 | the `array_filter` chain distributes over concatenation, so the kept records keep their relative order, ties included (the output is a subsequence of the sorted store) |
| Responses.SelectKeepsOrder | Services/ResponseService.php:124-166 | filtering keeps the newest-first order |
| Responses.Paginate | Services/ResponseService.php:171-180 | a positive offset drops that many, then a positive limit caps the length; non-positive values change nothing; the result is a window of the input |
| Responses.WindowKeepsOrder | Services/ResponseService.php:171-180 | pagination keeps the newest-first order |
| Responses.Query | Services/ResponseService.php:114-183 | the result is newest first, every record matches the filters, a positive limit bounds the length, and without paging it holds exactly the matching records (also Plugin.php:208-277) |
| Responses.ForContact | Services/ResponseService.php:188-191 | newest first; for a non-empty contact it holds exactly that contact's records; for an empty contact id it holds every record (also Plugin.php:282-285) |
| Responses.InContactHistory | Services/ResponseService.php:188-191 | a record is in a contact's history exactly when it is stored with that contact |
| Responses.SavedFoundByContact | Services/ResponseService.php:72-105 | a saved response with a contact is found again by `forContact` |
| Responses.ResponseLog.Save | Services/ResponseService.php:72-105 | returns the prepared record and writes the store upserted with it; the loop finds the first record with the same id |
| Scoring.Classify | Services/ScoringService.php:13-22 | promoter exactly when the score is at least 9, passive at 7..8, detractor below 7 (negatives too) (also Plugin.php:297-306) |
| Scoring.CountsCover | Services/ScoringService.php:42-58 | promoters + passives + detractors = number of responses |
| Scoring.PercentTenths | Services/ScoringService.php:73-75 | a rounded percentage lies in 0..100.0, is 100.0 for all and 0 for none |
| Scoring.RoundTenths | Services/ScoringService.php:76 | rounding a difference of percentages gives a score in -100..100, exactly ±100 at ±100.0 |
| Scoring.FromCounts | Services/ScoringService.php:60-87 | the counts are reported as given, the total is their sum, the score is in -100..100, and a zero total gives the all-zero result without division |
| Scoring.Nps | Services/ScoringService.php:40-88 | total = number of responses, the counts are the class counts (a missing score counts as 0, a detractor), the score is in -100..100, and no responses gives all zeros (also Plugin.php:324-372) |
| Scoring.AllPromoters | Services/ScoringService.php:73-76 | only promoters gives 100 |
| Scoring.AllDetractors | Services/ScoringService.php:73-76 | only detractors, or only missing scores, gives -100 |
| Scoring.Calculate | Services/ScoringService.php:40-88 | the counting loop computes `calculate` |
| Scoring.InMonthOfExact | Services/ScoringService.php:109-112 | a month's window holds exactly the responses whose `created_at` lies in the string range, each as often as given |
| Scoring.TrendOf | Services/ScoringService.php:100-127 | `trend(m)` has max(m, 0) entries, oldest month first; entry k is the score of month m-1-k's window (also Plugin.php:383-412) |
| Scoring.LastDayDropped | Services/ScoringService.php:109-112 | a response stamped `<monthEnd>T…` is outside its month's window |
| Scoring.TrendOver | Services/ScoringService.php:104-124 | the month loop builds exactly `TrendOf` of the queried responses |
| Scoring.Trend | Services/ScoringService.php:100-127 | `trend` is `TrendOf` of `query($filters)` |
| Scoring.GroupKeysExact | Services/ScoringService.php:141-147 | the group keys are exactly the keys the responses carry (a missing key as 'unassigned' or 'uncategorized'), each once |
| Scoring.GroupExact | Services/ScoringService.php:141-147 | each group holds exactly the responses with its key, as often as given |
| Scoring.GroupsPartition | Services/ScoringService.php:141-147 | the group sizes add up to the number of responses |
| Scoring.GroupResponses | Services/ScoringService.php:141-147 | the grouping loop files each response under its key, in order of first appearance (also Plugin.php:420-435, 453-467, 485-499) |
| Scoring.ScoreGroups | Services/ScoringService.php:149-153 | the scoring loop gives one entry per key, `calculate` of its group |
| Scoring.InsertByScoreKeepsOrder | Services/ScoringService.php:155-157 | inserting by score keeps a list sorted by score, descending |
| Scoring.SortByScore | Services/ScoringService.php:155-157 | the `usort` result is sorted by score, descending, and keeps the length |
| Scoring.SortByScorePermutes | Services/ScoringService.php:155-157 | the sort is a permutation of the entries |
| Scoring.BreakdownTotals | Services/ScoringService.php:135-160 | the group totals of a breakdown add up to the number of queried responses (same for team 167-192 and category 199-224) |
| Scoring.BreakdownDistinct | Services/ScoringService.php:135-160 | a breakdown lists each group once |
| Scoring.BreakdownEntriesScored | Services/ScoringService.php:149-153 | each entry is `calculate` of the group of its key, and some response carries that key |
| Scoring.BreakdownCoversResponses | Services/ScoringService.php:141-153 | every response's group has an entry |
| Scoring.Breakdown | Services/ScoringService.php:135-160 | the three loops compute the breakdown of `query($filters)` by the dimension (also 167-192, 199-224 and Plugin.php:420-509) |
| Surveys.CanSend | Services/SurveyService.php:17-23 | with `frequency_limit_days <= 0` a survey may always go out, whatever the contact's history (also Plugin.php:523-530) |
| Surveys.FirstTimeContact | Services/SurveyService.php:17-31 | for a contact without responses it may go out exactly when none of theirs is pending (also Plugin.php:523-537) |
| Surveys.NewestResponseDecides | Services/SurveyService.php:33-43 | with a history only the newest response counts: an unparseable date allows the survey, otherwise it is allowed exactly when `now - created_at >= days * 86400` (also Plugin.php:538-549) |
| Surveys.HistoryStartsNewest | Services/SurveyService.php:33-35 | the first of the contact's responses carries the newest `created_at` |
| Surveys.NewSurveyDue | Services/SurveyService.php:112-130 | the queued record is pending, unsent, carries the given ids, and becomes due exactly `trigger_delay_hours` hours after now (also Plugin.php:611-636) |
| Surveys.Outcome | Services/SurveyService.php:166-193 | a due survey ends skipped exactly when throttled, sent (stamped) exactly when allowed and the transport is absent or accepts, failed otherwise; no other field changes |
| Surveys.Swept | Services/SurveyService.php:155-197 | the swept queue has the same length and holds each survey's new state |
| Surveys.Processed | Services/SurveyService.php:155-199 | the reported records are at most as many as scanned and each is skipped, sent or failed |
| Surveys.SweepStep | Services/SurveyService.php:155-193 | one step of the loop extends the swept prefix and adds a due survey's new state to the report |
| Surveys.SweepChangesOnlyDue | Services/SurveyService.php:155-193 | only pending surveys with a parseable, past `send_at` change; each ends skipped, sent or failed, with only status and `sent_at` changed (also Plugin.php:650-706) |
| Surveys.SweepIdempotent | Services/SurveyService.php:155-197 | nothing is due after a sweep, so a second sweep at the same time changes nothing |
| Surveys.FirstTimeContactSkipped | Services/SurveyService.php:166-170 | a due survey of a contact with no responses is skipped whenever a frequency limit is set |
| Surveys.SweepKeepsPendingUnique | Services/SurveyService.php:155-197 | a sweep keeps pending surveys unique per contact |
| Surveys.FirstToken | Services/SurveyService.php:268-274 | finds the first survey carrying the token, or reports that none does |
| Surveys.Accepted | Services/SurveyService.php:268-282 | a submission is accepted only for the first survey carrying the token (no earlier survey carries it), unless that survey is completed (a sent, skipped, failed or pending one is accepted); refused when no survey carries the token or the first one to carry it is completed |
| Surveys.SecondSubmitRejected | Services/SurveyService.php:280-297 | after an accepted submission, a second one with the same token is refused |
| Surveys.CompleteKeepsPendingUnique | Services/SurveyService.php:296-297 | completing a survey keeps pending surveys unique per contact |
| Surveys.Submitted | Services/SurveyService.php:284-294 | the saved response has a fresh id, `created_at` now, the survey's contact, ticket, agent, team and category, the clamped score and the given texts (also Plugin.php:773-808) |
| Surveys.SurveyUrl | Services/SurveyService.php:205-213 | the base URL without trailing `/`, then `/nps/survey/` and the token; an empty base without a URL helper (also Plugin.php:711-719) |
| Surveys.SurveyUrlIgnoresTrailingSlash | Services/SurveyService.php:212 | a trailing slash on the base URL does not change the survey URL |
| Surveys.SurveyQueue.HasPending | Services/SurveyService.php:82-93 | true exactly when some stored survey of the contact is pending (also Plugin.php:588-599) |
| Surveys.SurveyQueue.Queue | Services/SurveyService.php:105-137 | appends exactly the new record at the end, without de-duplication; the contact then has a pending survey |
| Surveys.SurveyQueue.ProcessQueue | Services/SurveyService.php:144-200 | disabled: returns nothing and does not rewrite the queue. Enabled: writes the swept queue and returns exactly the changed records in queue order (also Plugin.php:650-706) |
| Surveys.SurveyQueue.Submit | Services/SurveyService.php:263-313 | unknown or completed token: nothing is written and null is returned. Otherwise it saves the submitted response and marks only that survey completed (also Plugin.php:773-823) |
| Events.Decide | Handlers/EventHandler.php:16-49 | disabled never queues; a survey is queued exactly when enabled, both ids are non-empty, `canSend` holds and none is pending (also Plugin.php:835-868) |
| Events.FallbacksOnlyWhenAbsent | Handlers/EventHandler.php:25-27 | the contact falls back to `requester_id` and the agent to `agent_id` only when the first key is absent or null |
| Events.EmptyTicketIdIgnored | Handlers/EventHandler.php:26-33 | a missing, null, `""`, `"0"` or `0` ticket id queues nothing |
| Events.ResolvingAgainQueuesNothing | Handlers/EventHandler.php:36-49 | after a call that queues, the contact has a pending survey and resolving any of their tickets again queues nothing |
| Events.QueueingKeepsPendingUnique | Handlers/EventHandler.php:44-49 | queueing through the guards keeps pending surveys unique per contact |
| Events.OnTicketResolved | Handlers/EventHandler.php:16-54 | appends exactly one survey when `Decide` allows it and leaves the queue untouched otherwise; afterwards the contact has a pending survey (also Plugin.php:835-873) |
| Events.OnCronHourly | Handlers/EventHandler.php:59-62 | returns exactly what the sweep returns and leaves the queue as the sweep does |
| Events.OnActivate | Support/Config.php:86-107 | creates the default settings, an empty response list and an empty queue only where the file is missing; existing files are kept (also Plugin.php:1010-1035) |
| Plugin.TrendDirection | Plugin.php:980-988 | 'up' exactly when current > previous + 2, 'down' exactly when current < previous - 2, 'stable' otherwise |
| Plugin.DirectionSwaps | Plugin.php:980-988 | swapping current and previous swaps up and down and keeps stable |
| Plugin.Widget | Plugin.php:973-1003 | the score is `calculate` over all stored responses; "previous" is the score of the older month of a 2-month trend; the direction compares the two; `enabled` mirrors the settings |
| Plugin.WidgetWithoutResponses | Plugin.php:973-1003 | with no responses the widget shows zeros and a stable trend |
| Plugin.ColumnScore | Plugin.php:894-903 | a shown score belongs to a response that carries the ticket's id |
| Plugin.ColumnNullWithoutResponse | Plugin.php:894-903 | the column is null when no response carries the ticket's id |
| Plugin.ColumnShowsNewest | Plugin.php:894-903 | otherwise it shows the score of a newest response carrying the id; a ticket without an id shows the newest response overall |
| Plugin.ColumnCandidates | Plugin.php:896 | the column's query picks from exactly the responses carrying the ticket's id |
| Plugin.Sidebar | Plugin.php:919-933 | at most 10 responses; an empty contact id gives nothing and an all-zero score |
| Plugin.SidebarShowsNewestTen | Plugin.php:926-931 | for a contact: the first min(10, n) of their n responses, newest first, while the score is `calculate` over all n |
| Plugin.SidebarOnlyContact | Plugin.php:926-931 | every listed response is a stored response of the contact |

## Left out

- File I/O: JSON encoding and decoding, directory creation, locking. A failed write, which the source reports as `false`, is not modelled. `ConfigStore.Save` always reports success.
- Random ids and tokens (`random_bytes`) are parameters. Their uniqueness is not assumed anywhere.
- Time: `time()`, `gmdate` and `strtotime` are the `Clock` parameter. A sweep stamps every sent survey with the same `sent_at`, which the source does too unless the sweep crosses a second boundary.
- `send_at` is stored as the already-parsed time (`Survey.sendAt`). The `gmdate`/`strtotime` round trip of the stored string is not modelled.
- Calendar month arithmetic in `trend` (`strtotime("-i months")`, `date('Y-m-t')`, `date('M Y')`) is the `calendar` parameter.
- Floating point: percentages are exact tenths with halves rounded up, and the score rounds halves away from zero. Binary floating-point error at exact halves is not modelled.
- `(int)` of a string models only an optional sign and leading decimal digits. Leading whitespace, decimal points and exponents are not modelled. Float and non-integer scores stored in the response file are not modelled (`Response.score` is an integer or absent).
- JSON arrays that decode to PHP lists, and numeric-string array keys that PHP turns into integers (for example a breakdown key `"5"` becoming `5`), are not modelled.
- Response records have the template's fields only. `array_merge` in `save` (Services/ResponseService.php:84) keeps input keys outside the template and stores them, and `query` returns them; the fixed `Response` datatype drops them.
- Ids, contact ids and tokens are strings throughout. The strict `===` comparisons in `save`, `hasPending` and `submit` (Services/ResponseService.php:92, Services/SurveyService.php:87 and 269) therefore never meet the int-versus-string mismatch PHP would reject, such as a stored id `5` against `"5"`.
- Integers are unbounded. PHP's 64-bit width is not modelled: `(int)` of a digit run beyond `PHP_INT_MAX` saturates in PHP while `IntCast` does not, and `time() + $delay * 3600` (Services/SurveyService.php:116) would turn into a float on overflow.
- An explicit `null` value in a `save` input is treated like an absent key. A status string outside the five statuses is not modelled.
- Casting a ticket object to an array, and a ticket object's `->id` in the column resolver, are not modelled: tickets are arrays (`map<string, Value>`). An array passed as a sidebar contact id would raise a type error in PHP; the model casts it to `"Array"`.
- The host calls `escalated_log`, `escalated_broadcast` and `escalated_update_option` change no plugin state and are left out. `escalated_send_email` is the `Mailer` parameter, indexed by queue position.
- The e-mail body (`buildEmailBody`, Plugin.php:724-755) is text only and is left out.
- The host registrations (actions, filters, pages, menu, widget) are not modelled; their closures are `Plugin.Widget`, `Plugin.ColumnScore` and `Plugin.Sidebar`. `onDeactivate` only broadcasts and is left out.
- `src/index.js` is a UI manifest with empty handlers and is not part of this model.
- Responses.SortNewestFirst: does not state that ties keep storage order, although the insertion sort is stable like PHP's `usort`.
- Scoring.SortByScore: does not state that entries with equal scores keep their order of first appearance, although the insertion sort is stable like PHP's `usort`.
