# Football notifications: a Dafny model of the scripts' logic

The repository is a set of Python scripts around football fixtures. They
gather the day's matches from several web APIs, send Telegram reminders
before kick-off, build a TV schedule, analyse the log file and mail a
summary. Most of the code is HTTP, HTML-scraping and mail glue. This project
models the five pieces of sequential logic inside that glue and proves what
they do. The clock, the network and the files' contents become inputs.

- `text.dfy` (module `Text`): the string operations the scripts rely on.
  These are substring search (`in`), ASCII `lower()`/`upper()`, `int()` and
  `str()` of naturals, `str.join`, `isprintable`, `strip`, and a list
  comprehension that raises on the first bad item.
- `json_values.dfy` (`JsonValues`): a decoded JSON value as `json` hands it
  over, with `dict.get`, subscripting, chained `.get(…, {})`, truthiness and
  `str()`.
- `dicts.dfy` (`Dicts`): a Python dict as keys in insertion order plus a map,
  and the sum of a measure over its values.
- `aggregation.dfy` (`MultiSource`): `FootballDataSources.fetch_matches`
  (multi_source_matches.py). It covers the five adapters' key check and
  record mapping, the concatenation in priority order, and the first-seen
  deduplication on `(home_team, away_team, datetime)`.
- `notifications.dfy` (`Notifications`): from fetch_matches.py,
  `sanitize_env_var`, `check_env`, the emoji choice, the reminder loop of
  `schedule_match_notifications` (times as integer seconds, sleep and send
  as a trace of events) and the ten-request loop of
  `get_matches_from_football_data`.
- `tv_schedule.dfy` (`TvSchedule`): `update_tv_schedule` (grouping by
  channel, the Sky/DAZN overwrite, the sort by time string) and the
  football-keyword filter of the Rai and Mediaset scrapers. Scraped pages
  are given as maps from section to cards.
- `log_analysis.dfy` (`LogAnalysis`): `analyze_log_file`, covering
  `readlines`, the four regular expressions as string matchers, the
  single-pass fold and the saved report dictionary.
- `email_summary.dfy` (`EmailSummary`): `format_matches_summary`, with
  `strptime('%Y-%m-%dT%H:%M:%S%z')` and `strftime('%H:%M')`.

Python exceptions appear as `Option` results (`None` where the code raises)
when a caller catches them. Where the code swallows an exception, the model
returns the fallback value directly.

## Model

| member | source | states |
|---|---|---|
| MultiSource.ValidateApiKey | multi_source_matches.py:54-60 | the key check fails exactly when the configured variable is unset or empty |
| MultiSource.MapItem | multi_source_matches.py:86-94 | a record is built only from a dict item, and it carries the adapter's own source tag |
| MultiSource.MissingFieldDefaults | multi_source_matches.py:129-137 | for the four dict-shaped sources, an item maps exactly when no field's chain of subscripts meets a value that is not a dict; a field whose keys are all present carries the payload's value; a field whose chain reaches a dict lacking the next key carries 'Unknown' for a team, the requested date for the time, or 'Unknown League' for the competition |
| MultiSource.ReadFieldMeaning | multi_source_matches.py:88-91 | one field's `.get` chain raises exactly when its subscripts meet a non-dict, reads the payload's value when every key is present, and gives the field's default when it reaches a dict lacking the next key |
| MultiSource.OddsFieldDefaults | multi_source_matches.py:214-220 | an Odds API record takes the requested date when `commence_time` is missing and 'Unknown League' when `sport_key` is missing, and otherwise the payload's values |
| MultiSource.OddsItemNeedsTwoTeams | multi_source_matches.py:214-222 | an Odds API item maps exactly when it is a dict whose `teams` has at least two entries, and the teams are entries 0 and 1 |
| MultiSource.OneShortTeamsListEmptiesOdds | multi_source_matches.py:212-230 | a single item with fewer than two teams makes the whole Odds adapter return [] |
| MultiSource.FetchSource | multi_source_matches.py:62-102 | without a key or a successful response the adapter gives [], and every record carries the adapter's tag |
| MultiSource.RequestedExactly | multi_source_matches.py:283-297 | every source with a key sends its request, whatever the others returned, and no other source does |
| MultiSource.CollectAllFailing | multi_source_matches.py:291-299 | when every adapter fails, the concatenation is empty |
| MultiSource.CollectSingleContributor | multi_source_matches.py:291-299 | when a single adapter contributes, the concatenation is exactly its records |
| MultiSource.ConcatSingle | multi_source_matches.py:292-297 | among distinct sources where only one contributes, the concatenation is that source's list, or empty if it is absent |
| MultiSource.KeysOfMembers | multi_source_matches.py:303-307 | a key is seen exactly when some record has it; there are no more keys than records |
| MultiSource.FirstSeenKeys | multi_source_matches.py:302-308 | deduplication keeps every key of the input and adds none |
| MultiSource.FirstSeenNoDuplicates | multi_source_matches.py:302-308 | no two output records share a key |
| MultiSource.FirstSeenSelectsFirstOccurrences | multi_source_matches.py:304-308 | the output is the input at an increasing list of positions, and those positions are exactly the first occurrences of the keys |
| MultiSource.LastIsFirstOccurrence | multi_source_matches.py:306 | a record is kept exactly when no earlier record has its key |
| MultiSource.FirstSeenLength | multi_source_matches.py:302-308 | the output has one record per distinct key, so it is never longer than the input |
| MultiSource.FirstSeenOfDistinct | multi_source_matches.py:302-308 | a list without repeated keys comes out unchanged |
| MultiSource.FirstSeenIdempotent | multi_source_matches.py:302-308 | deduplicating twice gives the same list as once |
| MultiSource.Deduplicate | multi_source_matches.py:302-308 | the loop with the `seen` set succeeds exactly when every key is hashable, and then returns the first-seen list |
| MultiSource.FetchMatches | multi_source_matches.py:275-311 | requests go out in priority order for the sources with a key; the result is the first-seen deduplication of all records in that order, and the call fails only on an unhashable key |
| Notifications.SanitizeEnvVar | fetch_matches.py:54-55 | the result is printable throughout, has no whitespace at either end and is no longer than the input |
| Notifications.SanitizeIdempotent | fetch_matches.py:54-55 | sanitising twice gives the same result as once |
| Notifications.CheckEnv | fetch_matches.py:162-171 | the first missing variable in list order is reported; the bot token is never reported; nothing is reported exactly when all the others are set |
| Notifications.CompetitionEmoji | fetch_matches.py:183-204 | a listed competition gives its emoji and any other hashable name gives ⚽; a list or dict raises |
| Notifications.LabelsOfLeads | fetch_matches.py:242 | the labels are "1 hour", "30 minutes" and "10 minutes" |
| Notifications.HourReminderEmoji | fetch_matches.py:205 | the one-hour reminder gets ⏰ |
| Notifications.ThirtyMinuteReminderEmoji | fetch_matches.py:205 | the 30-minute reminder gets ⏳ |
| Notifications.TenMinuteReminderEmoji | fetch_matches.py:205 | the 10-minute reminder gets ⚡ |
| Notifications.DueLeadsMembers | fetch_matches.py:235-237 | a lead gets a reminder exactly when kick-off minus the lead is strictly after the start time |
| Notifications.DueLeadsAreASuffix | fetch_matches.py:233-237 | the reminders sent are 60/30/10, 30/10, 10 or none, depending on how far ahead kick-off is |
| Notifications.LeadsDecrease | fetch_matches.py:233 | the leads are visited in decreasing order |
| Notifications.AsWrittenLabels | fetch_matches.py:235-243 | one notification per due lead, labelled in lead order |
| Notifications.AsWrittenSleep | fetch_matches.py:239-241 | every wait of the loop as written is positive, so the total sleep is at least one second per reminder |
| Notifications.AsWrittenTiming | fetch_matches.py:230-243 | as written, the k-th notification goes out at its reminder time plus all earlier waits |
| Notifications.OnlyFirstReminderOnTime | fetch_matches.py:230-243 | as written, only the first reminder sent goes out at its scheduled time |
| Notifications.ScheduleMatchNotifications | fetch_matches.py:227-243 | the loop as written produces the trace of sleeps and sends measured from one start time |
| Notifications.LateSecondReminder | fetch_matches.py:230-241 | with kick-off two hours ahead, the "30 minutes" reminder goes out 30 minutes after kick-off |
| Notifications.PastKickoffDropsAll | fetch_matches.py:235-237 | a match already started gets no reminder |
| Notifications.FortyMinutesAhead | fetch_matches.py:235-237 | forty minutes ahead, only the 30- and 10-minute reminders are sent |
| Notifications.OnTimeLabels | fetch_matches.py:235-243 | the corrected loop sends the same labels in the same order |
| Notifications.OnTimeSleep | fetch_matches.py:239-241 | the corrected loop sleeps in total from the start to the last reminder time |
| Notifications.OnTimeTiming | fetch_matches.py:239-241 | in the corrected loop, every notification goes out at its reminder time |
| Notifications.ScheduleMatchNotificationsOnTime | fetch_matches.py:227-243 | the corrected loop sends the same labels as the original, each at its reminder time, after a positive wait |
| Notifications.FieldsAll | fetch_matches.py:280-287 | the fields of a fixture are read exactly when every nested subscript succeeds |
| Notifications.FixtureOfFields | fetch_matches.py:280-287 | a fixture is built exactly when all five fields can be read, from those values and the Football-Data.org tag |
| Notifications.MatchList | fetch_matches.py:278-279 | the list iterated is what `'matches' in data` and `data['matches']` give, including the cases that raise |
| Notifications.PassRecordsExactly | fetch_matches.py:278-288 | one answered request succeeds exactly when every item of its match list yields a fixture, and then appends one fixture per item, in order |
| Notifications.Answered | fetch_matches.py:273-276 | the requests before the first one that raises were all answered, and the next one raised |
| Notifications.PassesSplit | fetch_matches.py:273-288 | for any pass before the first failed request, the result is the earlier passes' fixtures followed by the later passes' |
| Notifications.RequestErrorKeepsEarlier | fetch_matches.py:273-298 | a request that raises ends the loop: the result is what the earlier passes appended, whatever later responses would have been |
| Notifications.PassFailsAll | fetch_matches.py:278-288 | a pass whose body or item raises makes the whole call raise, losing what was appended |
| Notifications.PassesFail | fetch_matches.py:273-298 | the passes fail exactly when some pass answered before the first failed request raises |
| Notifications.FootballDataMatches | fetch_matches.py:252-300 | without a key, or when the first request raises, the result is []; the call raises exactly when some pass answered before the first failed request raises; a successful result starts with the first pass's fixtures |
| Notifications.FootballDataTagged | fetch_matches.py:286 | every fixture carries the Football-Data.org tag |
| Notifications.AppendFixtures | fetch_matches.py:279-288 | the inner loop succeeds exactly when every item yields a fixture, and then appends them in order |
| Notifications.GetMatchesFromFootballData | fetch_matches.py:252-300 | the ten-pass loop returns exactly FootballDataMatches |
| Notifications.TenfoldFixtures | fetch_matches.py:273-288 | as written, ten answers with the same fixtures return the list ten times over, so each fixture occurs ten times as often as in one answer |
| Notifications.FootballDataMatchesOnce | fetch_matches.py:252-300 | with one request: no key or a failed request gives []; the call fails exactly when the body or some item raises; otherwise there is one fixture per item, in order |
| Notifications.OnceIsFirstPass | fetch_matches.py:273-288 | the single-request function is the loop cut to its first pass |
| TvSchedule.AnyKeywordIff | fetch_tv_schedule.py:50-51 | `any(keyword in text …)` holds exactly when some keyword occurs at some position |
| TvSchedule.SerieAIsFootball | fetch_tv_schedule.py:50-51 | the comparison ignores case: "SERIE A" is a football title |
| TvSchedule.FootballPrograms | fetch_tv_schedule.py:41-58 | no more entries than cards, each with the channel as written |
| TvSchedule.FootballProgramsExactly | fetch_tv_schedule.py:45-58 | a card becomes an entry exactly when it has a title and a time and the title is about football |
| TvSchedule.CollectFootball | fetch_tv_schedule.py:41-58 | the append loop over one section builds exactly the filtered list |
| TvSchedule.PagePrograms | fetch_tv_schedule.py:23-63 | a scraper's programmes come from its two sections only, each written with one of their two channel names; a failed page gives none |
| TvSchedule.FetchRaiPlaySchedule | fetch_tv_schedule.py:23-63 | Rai 1 entries then Rai 2 entries, written upper-cased; a failure gives [] |
| TvSchedule.FetchMediasetSchedule | fetch_tv_schedule.py:65-110 | Canale 5 entries then Italia 1 entries; a failure gives [] |
| TvSchedule.StrLeTotal | fetch_tv_schedule.py:224 | any two time strings are comparable |
| TvSchedule.StrLeTransitive | fetch_tv_schedule.py:224 | the string order is transitive |
| TvSchedule.InsertSorted | fetch_tv_schedule.py:224 | inserting into a sorted list keeps it sorted |
| TvSchedule.SortByTime | fetch_tv_schedule.py:224 | sorting keeps exactly the same entries |
| TvSchedule.SortByTimeSorted | fetch_tv_schedule.py:224 | the sorted list is ordered by time and is a permutation of its input |
| TvSchedule.AppendPrograms | fetch_tv_schedule.py:197-210 | the append loop gives the dictionary built program by program |
| TvSchedule.SortChannels | fetch_tv_schedule.py:223-224 | the loop over the channels sorts every list in place and changes nothing else |
| TvSchedule.UpdateTvSchedule | fetch_tv_schedule.py:192-231 | the schedule is the grouped dictionary with the Sky and DAZN overwrites, then every list sorted |
| TvSchedule.AddAllContents | fetch_tv_schedule.py:197-210 | a channel is a key exactly when it was present or some program names it, and its list grows by that channel's programs in fetch order |
| TvSchedule.AddAllTotal | fetch_tv_schedule.py:197-210 | appending adds one entry per program |
| TvSchedule.PutTwice | fetch_tv_schedule.py:213-220 | assigning a key twice keeps the second value |
| TvSchedule.SortListsTotal | fetch_tv_schedule.py:223-224 | sorting keeps the number of entries |
| TvSchedule.ListsSortedPermuted | fetch_tv_schedule.py:223-224 | each final channel list is sorted by time and is a permutation of the list built before sorting |
| TvSchedule.OtherChannels | fetch_tv_schedule.py:197-224 | every channel other than Sky and DAZN is present exactly when a Rai or Mediaset program names it, and holds those programs sorted |
| TvSchedule.SkyAndDazn | fetch_tv_schedule.py:213-220 | the Sky Sport and DAZN keys are overwritten only by a non-empty list, and are otherwise left as the earlier steps made them |
| TvSchedule.NoScraperWrites | fetch_tv_schedule.py:53-105 | the Rai and Mediaset scrapers never name Sky Sport or DAZN |
| TvSchedule.TotalEntries | fetch_tv_schedule.py:197-224 | with the scrapers' channel names, the schedule holds as many entries as the four scrapers returned |
| TvSchedule.UpdateFromPages | fetch_tv_schedule.py:192-231 | the schedule is the one update_tv_schedule builds from the two pages' programmes and the Sky and DAZN lists, and it holds exactly as many entries as they have together; a failed page contributes nothing |
| LogAnalysis.SplitLinesRoundTrip | analyze_logs.py:22 | the lines read put back together to the file's text |
| LogAnalysis.SplitLinesWellFormed | analyze_logs.py:22 | every line is non-empty, and all but the last end with their only newline |
| LogAnalysis.ConcatRoundTrip | analyze_logs.py:22 | splitting well-formed lines after joining them gives them back |
| LogAnalysis.TailToEndIff | analyze_logs.py:16-17 | `(.*?)$` captures the rest of the line without its final newline, when no other newline lies in between |
| LogAnalysis.SearchFails | analyze_logs.py:36-50 | `search` fails exactly when no position matches |
| LogAnalysis.SearchIsLeftmost | analyze_logs.py:36-50 | `search` returns the match at the leftmost matching position |
| LogAnalysis.SearchFindsLeftmost | analyze_logs.py:36-50 | the first position that matches is the one `search` reports |
| LogAnalysis.LazyIsShortest | analyze_logs.py:17-18 | a lazy `.*?` stops at the first position where the rest of the pattern matches |
| LogAnalysis.LazyFails | analyze_logs.py:17-18 | a lazy `.*?` fails exactly when no end position within the line lets the rest match |
| LogAnalysis.FoundMatchesAt | analyze_logs.py:15 | the count pattern matches at a position exactly when "Found", the digits and " matches from Football-Data.org" occur there |
| LogAnalysis.RemainingAt | analyze_logs.py:18 | the quota pattern reads the whole run of digits after the header name |
| LogAnalysis.FixtureAfter | analyze_logs.py:16 | the notification pattern splits at the first " vs " and keeps the rest of the line as the away team |
| LogAnalysis.MessageAfter | analyze_logs.py:17 | the error pattern's message is the rest of the line after the colon |
| LogAnalysis.ErrorPrefixMessage | analyze_logs.py:17 | an "ERROR: " line reports the rest of its line as the message |
| LogAnalysis.FoundAfterErrorPrefix | analyze_logs.py:15-37 | the count pattern still matches after an "ERROR: " prefix, and `int` reads the digits |
| LogAnalysis.OneLineTwoRecords | analyze_logs.py:36-47 | the checks are independent: one line can both set a count and add an error |
| LogAnalysis.Readings | analyze_logs.py:29-51 | each line is read on its own, in order |
| LogAnalysis.NoDateBeforeFirstStamp | analyze_logs.py:28-33 | the current date stays None until a line starts with a date |
| LogAnalysis.LatestStamp | analyze_logs.py:28-33 | the current date is the stamp of the last line that has one |
| LogAnalysis.StampSetsDate | analyze_logs.py:31-33 | a stamped line sets the date for its own checks |
| LogAnalysis.LastCountWins | analyze_logs.py:36-38 | the count stored for a date comes from the last count line read under that date |
| LogAnalysis.MatchCountKeys | analyze_logs.py:36-38 | a date is a key exactly when some count line was read under it |
| LogAnalysis.NotificationCounts | analyze_logs.py:41-43 | each fixture's counter is the number of notification lines naming it |
| LogAnalysis.NotificationTotal | analyze_logs.py:41-43 | the counters add up to the number of notification lines |
| LogAnalysis.PresentExactly | analyze_logs.py:46-51 | the positions of present entries are listed once each, in increasing order |
| LogAnalysis.ErrorsInLineOrder | analyze_logs.py:46-47 | one error per matching line, in line order |
| LogAnalysis.ApiCallsInLineOrder | analyze_logs.py:49-51 | one quota per matching line, in line order |
| LogAnalysis.ReportShape | analyze_logs.py:80-85 | the report has exactly the keys matches_by_date, notifications, api_calls and errors, and the two lists are the ones gathered |
| LogAnalysis.AnalyzeNext | analyze_logs.py:29-51 | one more line moves the state by one loop turn |
| LogAnalysis.AnalyzeLogFile | analyze_logs.py:7-94 | a missing file gives no report; otherwise the report is the one made from the fold over the file's lines |
| EmailSummary.ParseIso | send_calendar_email.py:51 | a parsed timestamp is a valid date and time, with an offset under a day |
| EmailSummary.IsoRoundTrip | send_calendar_email.py:51 | parsing a written timestamp gives it back |
| EmailSummary.HourMinuteAsWritten | send_calendar_email.py:51-52 | the hour and minute strftime writes are the characters of the date string |
| EmailSummary.MatchFields | send_calendar_email.py:51-55 | a match gives its fields only with a date strptime accepts |
| EmailSummary.EntryStartsWithTime | send_calendar_email.py:51-56 | an entry is the date string's hour and minute, " - ", the home team, " vs ", the away team, then "\nVenue: " and the venue when the venue is truthy |
| EmailSummary.RenderEnding | send_calendar_email.py:54-56 | the entry ends with the venue line exactly when the venue is truthy, and otherwise with the away team |
| EmailSummary.VenueLine | send_calendar_email.py:55-56 | the venue line appears only when `match.get('venue')` is present and non-empty |
| EmailSummary.CollectEntries | send_calendar_email.py:49-57 | the loop succeeds exactly when every match gives an entry, and then it has one entry per match in input order |
| EmailSummary.FormatMatchesSummary | send_calendar_email.py:40-62 | a missing or unreadable file gives the error text; an empty list gives "No matches scheduled for today."; otherwise the entries joined by blank lines, or the error text if any match fails |
| EmailSummary.SummaryLayout | send_calendar_email.py:59 | the summary begins with the first entry; entry i is the i-th match's, placed after the earlier entries and their blank lines and followed by a blank line unless it is the last; the length is the entries' plus two per gap, so nothing else is in the text |
| Text.MapOrFail | multi_source_matches.py:86-94 | a comprehension succeeds exactly when every item maps, with one result per item in order |
| Text.FindFrom | fetch_tv_schedule.py:50-51 | substring search finds the first occurrence at or after the start, or reports that there is none |
| Text.ContainsIff | fetch_tv_schedule.py:50-51 | `w in s` holds exactly when `w` occurs at some position |
| Text.Lower | fetch_tv_schedule.py:50 | lower-casing maps every character and keeps the length |
| Text.Upper | fetch_tv_schedule.py:54 | upper-casing maps every character and keeps the length |
| Text.DecimalRoundTrip | fetch_matches.py:242 | `int(str(n)) == n` |
| Text.JoinLength | send_calendar_email.py:59 | a join is as long as its parts plus one separator between each pair |
| Text.JoinPlacement | send_calendar_email.py:59 | piece i of a join sits after the earlier pieces and one separator per earlier piece, and is followed by the separator unless it is the last |
| Text.KeepPrintable | fetch_matches.py:55 | the filter keeps only printable characters and leaves a printable string unchanged |
| Text.KeepPrintableConcat | fetch_matches.py:55 | the filter keeps a printable character and drops any other, and filters a concatenation part by part, so the kept characters stay in order |
| Text.LStrip | fetch_matches.py:55 | only leading whitespace is removed, and the result does not start with whitespace |
| Text.RStrip | fetch_matches.py:55 | only trailing whitespace is removed, and the result does not end with whitespace |
| JsonValues.Lookup | multi_source_matches.py:88 | a dict lookup finds the member with the key, or there is none |
| JsonValues.Get | multi_source_matches.py:88 | `.get` works only on a dict and gives the default for a missing key |
| JsonValues.Subscript | send_calendar_email.py:54 | subscripting succeeds exactly when the key is present |
| JsonValues.GetChainAbsent | multi_source_matches.py:88 | a chained `.get(…, {})` whose first key is missing gives the final default |
| JsonValues.Path | fetch_matches.py:281-285 | a chain of subscripts with no keys is the value itself, and one whose first key is missing raises |
| JsonValues.GetChainFound | multi_source_matches.py:88 | a chained `.get(…, {})` whose keys are all present reads the value at the end of the path |
| JsonValues.GetChainMissing | multi_source_matches.py:88 | a chained `.get(…, {})` that reaches a dict lacking the next key gives the final default |
| JsonValues.GetChainFails | multi_source_matches.py:88 | a chained `.get(…, {})` raises exactly when its subscripts reach a value that is not a dict |
| JsonValues.FalsyValues | send_calendar_email.py:55 | `bool()` is false exactly for None, False, 0, the empty string, the empty list and the empty dict |
| JsonValues.StrOfValues | send_calendar_email.py:54 | `str()` of a string is the string itself; None and the booleans are their Python names; an integer is its decimal text; a list or dict is bracketed |
| JsonValues.EscapePlain | send_calendar_email.py:54 | `repr` writes printable characters other than a backslash or the quote as they are |
| JsonValues.ReprStringShape | send_calendar_email.py:54 | `repr` of a string opens and closes with the quote it picks; it picks double quotes exactly when the string has a single quote and no double quote; plain printable text is only wrapped in that quote |
| Dicts.Put | fetch_tv_schedule.py:215 | assigning keeps an existing key's place and appends a new key |
| Dicts.PutTotal | fetch_tv_schedule.py:215 | assigning a key changes the total by the new value's measure minus the old one's |

## Left out

- Network, HTML and vendor calls are not modelled. Adapter responses, scraped
  pages and the Football-Data.org response body are inputs. A failed request,
  a non-200 status and a JSON decoding error all appear as a missing response.
- The 6-second pause between the ten requests of
  `get_matches_from_football_data` is left out. The ten requests are
  modelled, each with its own response, and "## Findings" shows that the
  loop returns every fixture once per answered request.
- The Telegram message text and sending, Gmail OAuth and sending, and
  calendar building are foreign library calls and are not modelled.
- `asyncio.gather` over matches and the real `asyncio.sleep` are left out.
  One match's loop is sequential, and sleeps and sends are recorded events.
- `datetime.now()` and `fromisoformat` are left out. The start time and the
  kick-off are integer seconds.
- Logging and printing are left out, including the console report of
  `analyze_log_file` and its floating-point average and minimum of the quotas.
- File writes are left out: the saved JSON files are modelled as the value
  written. `analyze_log_file` returns the report it saves (the Python
  function returns None).
- `\d`, `lower()` and `upper()` are taken over the ASCII range only.
  `isspace()` is Python's full set of whitespace characters. The text is a
  sequence of characters with no encoding.
- Text.IsPrintable is Python's `isprintable()` below U+0100 only. Above that
  it excludes the separators, the private-use planes and the common format
  characters. Every other code point counts as printable, including unassigned
  ones and other format characters such as U+0600, which Python rejects.
  KeepPrintable and `repr`'s escapes (JsonValues.EscapeChar) share this
  approximation.
- Opening the log in text mode translates "\r\n" and "\r" to "\n". That
  translation is not modelled.
- JSON numbers are integers only; floats are not modelled.
- EmailSummary.ParseIso accepts only the fixed-width form. It rejects
  one-digit fields, offsets with seconds or microseconds, and surrounding
  whitespace, some of which strptime accepts.
- TvSchedule.SortByTime is stable, as `list.sort` is, but stability is not
  stated.
- MapItem: its own contract states only the source tag and that the item is a
  dict. The field values, defaults and failure cases are stated by
  MissingFieldDefaults and ReadFieldMeaning for the dict-shaped sources, and
  by OddsItemNeedsTwoTeams and OddsFieldDefaults for the Odds API.
- FootballDataMatches: its own contract states the empty cases, the failure
  condition and the first pass's place. The per-pass contents are stated by
  PassRecordsExactly, PassesSplit and RequestErrorKeepsEarlier.
- Notifications.ScheduleMatchNotifications states its trace through
  ScheduleResult. The labels and timing are stated by AsWrittenLabels and
  AsWrittenTiming.
- The module-level code of fetch_matches.py (lines 1-125), which does not
  parse, is not modelled. Neither are the module-level prints of
  fetch_tv_schedule.py.

## Findings

| source | as written | input that shows it | evidently intended | confidence | as-written member | corrected member |
|---|---|---|---|---|---|---|
| fetch_matches.py:273-288 | every one of the ten passes appends its fixtures to `all_matches`, which is never reset or deduplicated | ten successful answers listing the same fixture return it ten times, and lines 306-316 schedule ten notification tasks for it | each fixture once, as the "total unique matches" log line (line 307) says | not executed | Notifications.TenfoldFixtures | Notifications.FootballDataMatchesOnce |
| fetch_matches.py:230-241 | every wait is measured from the single `current_time` read before the loop, so the waits add up | kick-off two hours ahead: the "30 minutes" reminder goes out 30 minutes after kick-off, and the "10 minutes" one 140 minutes after | each reminder goes out at kick-off minus its lead | not executed | Notifications.LateSecondReminder | Notifications.ScheduleMatchNotificationsOnTime |
