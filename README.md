# CalDAV calendar layer, modelled in Dafny

This project models the calendar layer of a voice-assistant skill that reads and
writes a Nextcloud calendar over CalDAV (`caldav_code.py`). It covers four parts:

- Writing an event: `create_event` turns a title, a begin and an end into an
  iCalendar document.
- Reading fetched records: `get_title_and_time_of_events` reads DTSTART, DTEND
  and SUMMARY back out of each document.
- Building view models: `create_parsed_date_objects` builds one `ParsedEvent`
  per record. `parse_dates` and `generate_output_date_string` then fill in its
  stamps, spoken date and spoken time; `check_ordinal` fixes the day suffix.
- Querying: `fetch_events` reads, builds and sorts the records of one time
  window. `fetch_events_for_date` asks for one day. `fetch_next_n_events` and
  `fetch_last_n_events` walk window after window until they have `n` events.

Modules, one file each:

| module | file | contents |
|---|---|---|
| `Text` | `text.dfy` | Python's `in`, `replace`, `split('\n')`, `split(':', 1)` and `strip` |
| `DateTimes` | `datetimes.dfy` | proleptic Gregorian date-times, `toordinal`, and the fixed-width `strftime`/`strptime` layouts |
| `Failures` | `failures.dfy` | the exceptions that escape, as values |
| `Ordinal` | `ordinal.dfy` | `check_ordinal` |
| `ICal` | `ical.dfy` | the document `create_event` writes, and the line scan that reads it |
| `Events` | `events.dfy` | the record classes and the in-place steps over them |
| `Sorting` | `sorting.dfy` | the stable sort `fetch_events` gets from `sorted` |
| `Fetch` | `fetch.dfy` | the queries |
| `Lifecycle` | `lifecycle.dfy` | a written event read back through the fetch pipeline |

The source changes objects in place, and the model keeps that shape:

- A fetched record is the class `RawEvent`. Its `start`, `end` and `summary`
  fields start out unset.
- The view model is the class `ParsedEvent`.
- Each loop over a list of records is a method that updates those objects one
  by one.
- Each per-record step is specified by a function on values: `Scan`/`Extract`,
  `Construct`, `NormalizeDates` and `Render`. The properties are proved about
  those functions.
- An exception the source lets escape becomes a `Failure` value:
  - `IndexError` is `MissingColon`;
  - `AttributeError` is `MissingField`;
  - `ValueError` from `strptime` is `BadTimestamp`;
  - `OverflowError` is `DateOverflow`.
- A method that can raise returns `ok: bool`. Its contract states exactly when
  `ok` is false.

What the model takes as parameters:

- the clock (`datetime.now()`, the UID digest and the DTSTAMP time);
- the host's `time.localtime(time.mktime(...))` conversion, as `clock`;
- the server's `date_search`, as `search`, a function from a window to the
  documents it returns.

Where the prose description of `check_ordinal` and the code disagree, the
model follows the code. The code turns "11th", "12th" and "13th" into "11st",
"12nd" and "13rd". It turns "02th" into "02nd" and leaves "04th" alone.
`Ordinal.OrdinalExamples` states these outcomes.

A timed event is written with a local `%Y%m%dT%H%M%S` stamp and no trailing
'Z'. `generate_output_date_string` parses stamps with `%Y%m%dT%H%M%SZ`. So a
timed document handed back unchanged cannot be rendered. Only the server's
expansion to UTC makes it readable. `Lifecycle.TimedDocumentUnreadable` states
this; a full-day document does go through (`Lifecycle.FullDayLifecycle`).

## Model

| member | source | states |
|---|---|---|
| Events.ParsedEvent.constructor | caldav_code.py:17-22 | a new view model holds the title, start and end it was given, with no spoken date and no time |
| Events.RawEvent.ReadAttributes | caldav_code.py:229-235 | the record's attributes become the scan of its document's lines from the attributes it had; fails exactly when the scan does |
| Events.GetTitleAndTimeOfEvents | caldav_code.py:213-236 | fails exactly when some record's document has a keyed line without ':'; otherwise every record holds the scan of its document from its former attributes, also when a record is listed twice |
| ICal.ScanFails | caldav_code.py:229-235 | the scan fails exactly when some line naming DTSTART, DTEND or SUMMARY has no ':' (Python's IndexError), whatever the starting attributes |
| ICal.ScanLastWins | caldav_code.py:229-235 | each attribute ends up with the stripped text after the first ':' of the last line that sets it; an attribute no line sets keeps its value |
| ICal.ExtractLastWins | caldav_code.py:229-235 | a document that reads has as start, end and summary the stripped text after the first ':' of its last DTSTART, DTEND and SUMMARY line, and has each one exactly when such a line exists |
| ICal.LastHasValue | caldav_code.py:229-235 | when the scan succeeds, the last line naming a key has a value after its ':' |
| ICal.ScanIdempotent | caldav_code.py:229-235 | scanning the same document a second time changes nothing |
| ICal.StampLineSetsNothing | caldav_code.py:230-235 | a DTSTAMP line, whatever its time stamp, matches none of DTSTART, DTEND, SUMMARY |
| ICal.RuleLine | caldav_code.py:95-98 | the FREQ line sets no attribute when the rule names no key |
| ICal.SummaryLine | caldav_code.py:126 | the SUMMARY line sets the summary to the stripped title, the eight trailing spaces gone, when the title names neither DTSTART nor DTEND |
| ICal.StartLine | caldav_code.py:109 | the DTSTART line, in both template forms, sets the start to its value text exactly |
| ICal.EndLine | caldav_code.py:110 | the DTEND line, in both template forms, sets the end to its value text and is not read as a DTSTART line |
| ICal.CreateEventLines | caldav_code.py:100-133 | the document splits into the fixed line order: the four header lines, UID, DTSTAMP, DTSTART, DTEND, the FREQ line only with a rule, SUMMARY, the two footer lines, then an empty piece |
| ICal.CreateThenExtract | caldav_code.py:73-133 | reading a created document back gives its start and end value texts and the stripped title, when title and rule hold no line break or key |
| ICal.SplitTerminated | caldav_code.py:229 | splitting newline-terminated lines on '\n' gives the lines back followed by an empty piece |
| Text.SplitLines | caldav_code.py:229 | `split('\n')` gives at least one piece, no piece holds '\n', and joining the pieces gives the text back |
| Text.SplitJoin | caldav_code.py:229 | splitting the join of newline-free lines gives the lines back |
| Text.AfterFirst | caldav_code.py:231 | `split(':', 1)[1]` is missing exactly when ':' does not occur, and otherwise is the text after the first ':' |
| Text.StripIsTrimmedSlice | caldav_code.py:231 | `strip()` keeps a slice of its input with only whitespace cut away on either side, and the slice starts and ends with a non-space |
| Text.StripAppendSpace | caldav_code.py:231 | trailing whitespace appended to a value does not survive `strip()` |
| Events.ParsedEvent.ParseDates | caldav_code.py:262-264 | the event becomes what `NormalizeDates` gives for its former state; fails exactly when that fails |
| Events.NormalizeDatesText | caldav_code.py:261-264 | when both stamps are 8 characters long, each becomes itself followed by "T000000Z" (or `strptime` fails); otherwise neither changes; nothing else changes |
| Events.NormalizeDatesIdempotent | caldav_code.py:261-264 | normalising a second time changes nothing |
| Events.ParseDates | caldav_code.py:250-266 | fails exactly when some event cannot be normalised; otherwise every event holds the normalisation of its former state |
| Events.MidnightText | caldav_code.py:263 | a `%Y%m%d` date formatted back with `%Y%m%dT%H%M%SZ` is itself followed by "T000000Z" |
| Events.ParsedEvent.GenerateOutputDateString | caldav_code.py:301-321 | the event becomes what `Render` gives for its former state; fails exactly when that fails |
| Events.RenderFails | caldav_code.py:302-305 | rendering fails exactly when a stamp does not parse as `%Y%m%dT%H%M%SZ` or the end falls on 0001-01-01 (the one-day subtraction overflows); otherwise title and stamps are kept and a spoken date is set |
| Events.FullDayExactly | caldav_code.py:305-306 | an event gets no time span exactly when its end is the calendar day after its start at the same time of day |
| Events.SpokenDate | caldav_code.py:307-320 | the spoken date is "on", the weekday of the start, the ordinal-corrected day and the month; day and month come from the shifted clock for a full-day event and the unshifted one otherwise |
| Events.SpokenTime | caldav_code.py:315-321 | the time span is "from " + the 12-hour shifted start + " to " + the 12-hour shifted end, 23 characters |
| Events.Clock12Readback | caldav_code.py:315-318 | `%I:%M%p` gives an hour from 01 to 12, the minute and AM/PM, from which the 24-hour hour and the minute read back |
| Events.RenderIdempotent | caldav_code.py:300-321 | rendering a second time changes nothing; only the stamps are read |
| Events.GenerateOutputDateString | caldav_code.py:288-322 | fails exactly when some event cannot be rendered; otherwise every event holds the rendering of its former state |
| Events.CreateParsedDateObjects | caldav_code.py:387-400 | fails exactly when some record cannot be built; otherwise one new view model per record, in order, each holding `Build` of its record's attributes |
| DateTimes.OneDayApart | caldav_code.py:305-306 | "end minus one day equals start" holds exactly when the end is the calendar day after the start, same time of day |
| DateTimes.NextDayNumber | caldav_code.py:305 | the next calendar day is a valid date-time exactly 86400 seconds later |
| DateTimes.SecondsInjective | caldav_code.py:196 | distinct date-times have distinct instants, so the sort key determines the stamp |
| DateTimes.ParseFormatUtc | caldav_code.py:302-304 | parsing `%Y%m%dT%H%M%SZ` reads back exactly what formatting wrote |
| DateTimes.FormatParseUtc | caldav_code.py:302-304 | whatever parses as `%Y%m%dT%H%M%SZ` is the formatting of what it parses to |
| DateTimes.ParseFormatDate | caldav_code.py:263 | parsing `%Y%m%d` reads back the date formatting wrote, at midnight |
| DateTimes.FormatParseDate | caldav_code.py:263 | whatever parses as `%Y%m%d` is the formatting of its date |
| DateTimes.LastDay | caldav_code.py:432 | 9999-12-31 is day 3652059, and no date-time lies beyond `datetime.max` |
| Ordinal.OrdinalExamples | caldav_code.py:268-286 | days 01, 02, 04, 11, 12, 13 come out as "1st", "02nd", "04th", "11st", "12nd", "13rd" |
| Ordinal.OrdinalDayPhrase | caldav_code.py:278-285 | for every day of the month, the corrected "%dth of %B" holds the padded day with the suffix its last digit picks, day 1 without its zero |
| Ordinal.OrdinalFirstRule | caldav_code.py:278-279 | "01th" becomes "1st" |
| Ordinal.OrdinalSecondRule | caldav_code.py:280-281 | two digits ending in 1, other than "01", keep both digits and get "st" |
| Ordinal.OrdinalThirdFourthRule | caldav_code.py:282-285 | digits ending in 2 or 3 get "nd" or "rd" in place of the phrase's one "th" |
| Ordinal.OrdinalNoRule | caldav_code.py:278-286 | any other digits pass unchanged |
| Ordinal.OrdinalNoTrigger | caldav_code.py:278-286 | a text holding none of the triggers passes unchanged |
| Ordinal.OrdinalRewritesEveryTh | caldav_code.py:282-285 | the "2th" and "3th" rules replace every "th" of the text, keeping its length |
| Ordinal.ThOnlyAfterDay | caldav_code.py:307 | a "%dth of %B" text holds "th" only right after the two day digits |
| Fetch.ReadAll | caldav_code.py:193-195 | one record per document and one view model per record, each holding what the document reads and builds to; fails exactly when some document cannot be read or built |
| Fetch.SortPairs | caldav_code.py:196-200 | both lists are permuted alike by the sort order, so they stay parallel |
| Fetch.FetchEvents | caldav_code.py:168-206 | fails exactly when some returned document cannot be read or built; otherwise two parallel lists holding `FetchSpec` of the returned documents |
| Fetch.RowFacts | caldav_code.py:193-196 | every fetched row has a start and an end, the title read or "No Title", a parsable start that is its sort key, and a spoken date |
| Fetch.RowFromDocument | caldav_code.py:389-396 | a fetched row's start and end are the values of the document's last DTSTART and DTEND lines, and its title is the value of its last SUMMARY line, or "No Title" when no line names SUMMARY |
| Fetch.SortRowsCorrect | caldav_code.py:196-197 | the sorted rows are a permutation of the input, ordered by start (descending with `reverse`), with equal starts in input order |
| Fetch.FetchSorted | caldav_code.py:193-206 | `fetch_events` returns every returned record exactly once, ordered by start, ascending or descending, ties in server order |
| Fetch.FetchNothing | caldav_code.py:199-206 | no documents give two empty lists |
| Sorting.SortOrderByCorrect | caldav_code.py:196-197 | the sort order lists every position once, keys ascending (or descending), equal keys in original order |
| Fetch.FetchEventsForDate | caldav_code.py:402-415 | the query runs from `date` to 23:59:59 later (the calendar day only when `date` is midnight), ascending; fails when that end lies past `datetime.max` or a document fails |
| Fetch.FetchNextNEvents | caldav_code.py:417-460 | succeeds exactly when the forward walk does; returns the parallel lists of `NSpec` for the forward direction |
| Fetch.FetchLastNEvents | caldav_code.py:324-369 | succeeds exactly when the backward walk does; each window is sorted descending; returns the parallel lists of `NSpec` for the backward direction |
| Fetch.WindowsShift | caldav_code.py:340-353 | every window is 100000 days wide, and each one follows the previous at that distance, forward or backward |
| Fetch.CollectedGrows | caldav_code.py:441-442 | what is collected after fewer windows is a prefix of what is collected after more |
| Fetch.RunMeaning | caldav_code.py:438-444 | the loop collects the windows in order, goes on exactly while fewer than `n` are collected and the bound is not reached, and stops at the first round where one fails |
| Fetch.NSpecMeaning | caldav_code.py:446-460 | the result is the first `min(n, collected)` events of the windows walked; none when `n <= 0` |
| Lifecycle.FullDayLifecycle | caldav_code.py:115-129 | a created full-day event reads back with midnight stamps of its two dates and its stripped title, then renders as `Render` says |
| Lifecycle.TimedDocumentUnreadable | caldav_code.py:101-110 | a created timed event reads back, but its stamps carry no 'Z', so rendering fails with `BadTimestamp` |

## Left out

- Connecting to the server (`create_client`, `fetch_calendars`) and the
  calendar operations `add_event`, `remove_events` and `rename_event` are
  network calls and are not part of this model.
- `date_search` is the parameter `search`. The retry without `expand=True`
  when the expanding search raises is not modelled: a search returns documents
  and never fails.
- Logging is left out; it has no effect on the results.
- `datetime.now()`, the DTSTAMP time and its SHA-1 digest (the UID) are
  parameters. SHA-1 is not modelled.
- `time.localtime(time.mktime(...))` is the parameter `clock`. Time zones and
  daylight saving time are not modelled.
- Times are whole seconds. Microseconds are dropped, so the window bounds of
  the walks are compared to the second. A `now` within one second of the range
  limits can therefore stop one round earlier or later than Python would.
- `strptime` is modelled on the fixed-width ASCII digit layouts only. Python
  also accepts several inputs that the model rejects:
  - single-digit fields and leading spaces;
  - the literals 'T' and 'Z' in lower case, since the format is matched
    ignoring case;
  - non-ASCII decimal digits, such as fullwidth digits.

  Any of these reaching `parse_dates` or `generate_output_date_string` is
  `BadTimestamp` in the model but parses in Python.
  Years below 1000 are not modelled in the `%Y` output.
- `strip()` is modelled for whitespace in the ASCII and Latin-1 range only.
- `create_parsed_events` is not part of this model.
- `create_datetime_object` is not part of this model.
- Events.GetTitleAndTimeOfEvents: does not state the records' attributes after
  a failure, because Python leaves them half updated at the exception.
- Events.ParseDates: does not state the events after a failure, because Python
  leaves them half updated at the exception.
- Events.GenerateOutputDateString: does not state the events after a failure,
  for the same reason. Its step is given as a ghost parameter that the
  precondition pins to `Render` with the same offset and clock.
- Events.CreateParsedDateObjects: does not state what it returns after a
  failure; in Python the exception discards the list.
- Fetch.FetchEvents: does not state the lists after a failure; in Python the
  exception escapes.
- Fetch.FetchNextNEvents: windows that share an end point can return the same
  event twice. The model returns what the search gives for each window; it
  does not model which events the server puts in both.
- Fetch.FetchLastNEvents: has the same boundary limitation as
  Fetch.FetchNextNEvents.
