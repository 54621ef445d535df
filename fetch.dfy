/** The calendar queries: `fetch_events` over one time window, the window
    of one day, and the walks over consecutive windows that collect the
    next or the last `n` events. The server's `date_search` is the
    parameter `search`, from a window to the documents it returns. Times
    are whole seconds since 0001-01-01T00:00:00 (`Seconds`). */
module Fetch {
  import opened Text
  import opened DateTimes
  import opened Failures
  import opened ICal
  import opened Sorting
  import opened Events

  /** The closed interval `date_search` is asked for. */
  datatype Window = Window(start: int, end: int)

  type Search = Window -> seq<string>

  /** One fetched event: the document of the record, the attributes read
      from it and the view of the `ParsedEvent` built from them. */
  datatype Row = Row(data: string, attrs: Fields, view: EventView)

  /** `fetch_events` builds its `ParsedEvent`s with a two-hour offset. */
  const FetchOffset: int := 2

  // ---------------------------------------------------------------------
  // fetch_events on values

  /** A document that is read and built without error. */
  predicate Readable(doc: string, clock: Clock)
  {
    Extract(doc).Ok? && Build(Extract(doc).value, FetchOffset, clock).Ok?
  }

  function RowOf(doc: string, clock: Clock): Row
    requires Readable(doc, clock)
  {
    Row(doc, Extract(doc).value, Build(Extract(doc).value, FetchOffset, clock).value)
  }

  /** The sort key: the start stamp as `%Y%m%dT%H%M%SZ` reads it. */
  function SortKey(v: EventView): int
  {
    match ParseUtc(v.start)
    case Some(t) => Seconds(t)
    case None => 0
  }

  function Keys(rows: seq<Row>): (keys: seq<int>)
    ensures |keys| == |rows| && forall i :: 0 <= i < |rows| ==> keys[i] == SortKey(rows[i].view)
  {
    seq(|rows|, i requires 0 <= i < |rows| => SortKey(rows[i].view))
  }

  /** The (parsed, raw) pairs after `sorted(..., reverse=reverse)`. */
  function SortRows(rows: seq<Row>, reverse: bool): (r: seq<Row>)
    ensures |r| == |rows|
  {
    var o := SortOrderBy(Keys(rows), reverse);
    SortOrderByCorrect(Keys(rows), reverse);
    seq(|rows|, i requires 0 <= i < |rows| => rows[o[i]])
  }

  /** The rows in the order the server returned the documents. */
  function Unsorted(docs: seq<string>, clock: Clock): (rows: seq<Row>)
    requires forall k :: 0 <= k < |docs| ==> Readable(docs[k], clock)
    ensures |rows| == |docs| && forall k :: 0 <= k < |docs| ==> rows[k] == RowOf(docs[k], clock)
  {
    seq(|docs|, k requires 0 <= k < |docs| => RowOf(docs[k], clock))
  }

  /** `fetch_events` on the documents the search returned: `None` when
      reading or building any of them fails (the exception propagates). */
  function FetchSpec(docs: seq<string>, reverse: bool, clock: Clock): Option<seq<Row>>
  {
    if forall k :: 0 <= k < |docs| ==> Readable(docs[k], clock) then
      Some(SortRows(Unsorted(docs, clock), reverse))
    else None
  }

  /** The two lists `fetch_events` returns, as objects, agree with `rows`
      position by position: the lists are parallel. */
  predicate Matches(parsed: seq<ParsedEvent>, events: seq<RawEvent>, rows: seq<Row>)
    reads set p | p in parsed, set e | e in events
  {
    |parsed| == |rows| && |events| == |rows| &&
    forall i :: 0 <= i < |rows| ==>
      parsed[i].View() == rows[i].view && events[i].data == rows[i].data &&
      events[i].Attributes() == rows[i].attrs
  }

  // ---------------------------------------------------------------------
  // fetch_events, fetch_events_for_date

  /** `fetch_events(start, end, reverse)`. The records the search returns
      are new objects; nothing that existed before is changed. */
  method FetchEvents(w: Window, reverse: bool, search: Search, clock: Clock)
    returns (ok: bool, parsed: seq<ParsedEvent>, events: seq<RawEvent>)
    ensures ok <==> FetchSpec(search(w), reverse, clock).Some?
    ensures ok ==> Matches(parsed, events, FetchSpec(search(w), reverse, clock).value)
    ensures ok ==> forall i :: 0 <= i < |parsed| ==> fresh(parsed[i]) && fresh(events[i])
  {
    var docs := search(w);
    var built, raw;
    ok, built, raw := ReadAll(docs, clock);
    if !ok {
      return false, [], [];
    }
    ghost var rows := Unsorted(docs, clock);
    assert Matches(built, raw, rows);
    parsed, events := SortPairs(built, raw, rows, reverse);
  }

  /** The reading part of `fetch_events`: one record per document, its
      attributes read, and one `ParsedEvent` built from each. */
  method ReadAll(docs: seq<string>, clock: Clock)
    returns (ok: bool, built: seq<ParsedEvent>, raw: seq<RawEvent>)
    ensures ok <==> forall k :: 0 <= k < |docs| ==> Readable(docs[k], clock)
    ensures ok ==> |built| == |docs| && |raw| == |docs|
    ensures ok ==> forall k :: 0 <= k < |docs| ==>
      built[k].View() == RowOf(docs[k], clock).view && raw[k].data == docs[k] &&
      raw[k].Attributes() == RowOf(docs[k], clock).attrs
    ensures ok ==> forall k :: 0 <= k < |docs| ==> fresh(built[k]) && fresh(raw[k])
  {
    raw := [];
    built := [];
    for i := 0 to |docs|
      invariant |raw| == i
      invariant forall j :: 0 <= j < i ==> fresh(raw[j]) && raw[j].data == docs[j] && raw[j].Attributes() == NoFields
    {
      var r := new RawEvent(docs[i]);
      raw := raw + [r];
    }
    ok := GetTitleAndTimeOfEvents(raw);
    if !ok {
      return;
    }
    assert forall k :: 0 <= k < |raw| ==> raw[k].Attributes() == Extract(docs[k]).value;
    ok, built := CreateParsedDateObjects(raw, FetchOffset, clock);
  }

  /** The sorting part of `fetch_events`: both lists permuted alike, by
      the order `SortRows` puts the rows in. */
  method SortPairs(built: seq<ParsedEvent>, raw: seq<RawEvent>, ghost rows: seq<Row>, reverse: bool)
    returns (parsed: seq<ParsedEvent>, events: seq<RawEvent>)
    requires Matches(built, raw, rows)
    ensures Matches(parsed, events, SortRows(rows, reverse))
    ensures forall i :: 0 <= i < |parsed| ==> parsed[i] in built && events[i] in raw
  {
    var keys := seq(|built|, k requires 0 <= k < |built| reads set p | p in built => SortKey(built[k].View()));
    assert keys == Keys(rows);
    var order := SortOrderBy(keys, reverse);
    SortOrderByCorrect(keys, reverse);
    parsed := seq(|built|, i requires 0 <= i < |built| => built[order[i]]);
    events := seq(|raw|, i requires 0 <= i < |raw| => raw[order[i]]);
  }

  /** The window of `fetch_events_for_date`: from `date` to 23:59:59
      later (the calendar day only when `date` is midnight). */
  function DayWindow(date: Stamp): Window
  {
    Window(Seconds(date), Seconds(date) + 86399)
  }

  /** `fetch_events_for_date(date)`: fails when the end of the day lies
      past `datetime.max`. */
  method FetchEventsForDate(date: Stamp, search: Search, clock: Clock)
    returns (ok: bool, parsed: seq<ParsedEvent>, events: seq<RawEvent>)
    ensures ok <==> DayWindow(date).end <= MaxInstant && FetchSpec(search(DayWindow(date)), false, clock).Some?
    ensures ok ==> Matches(parsed, events, FetchSpec(search(DayWindow(date)), false, clock).value)
  {
    if Seconds(date) + 86399 > MaxInstant {
      return false, [], [];
    }
    ok, parsed, events := FetchEvents(DayWindow(date), false, search, clock);
  }

  // ---------------------------------------------------------------------
  // fetch_next_n_events, fetch_last_n_events on values

  /** 100000 days, the width of each window. */
  const Interval: int := 100000 * 86400

  /** `fetch_next_n_events` walks forward from now, `fetch_last_n_events`
      backward. */
  datatype Direction = Forward | Backward

  /** The `k`-th window of the walk from `now`. */
  function WindowAt(dir: Direction, now: int, k: nat): Window
  {
    match dir
    case Forward => Window(now + k * Interval, now + (k + 1) * Interval)
    case Backward => Window(now - (k + 1) * Interval, now - k * Interval)
  }

  /** The first window can be formed without leaving the `datetime` range. */
  predicate StartsInRange(dir: Direction, now: int)
  {
    match dir
    case Forward => now + Interval <= MaxInstant
    case Backward => now - Interval >= MinInstant
  }

  /** The bound part of the loop test: the window still ends before
      `datetime.max - 100000 days`, or starts after `datetime.min + 100000
      days`. */
  predicate Continues(dir: Direction, w: Window)
  {
    match dir
    case Forward => w.end <= MaxInstant - Interval
    case Backward => w.start > MinInstant + Interval
  }

  /** What `fetch_events` gives for one window of a walk. */
  type WindowFetch = Window -> Option<seq<Row>>

  /** `fetch_events` over `search`, sorted as `reverse` says. */
  function Fetcher(search: Search, reverse: bool, clock: Clock): WindowFetch
  {
    w => FetchSpec(search(w), reverse, clock)
  }

  /** How far the `k`-th window still is from the bound. */
  function Distance(dir: Direction, now: int, k: nat): int
  {
    match dir
    case Forward => MaxInstant - now - k * Interval
    case Backward => now - k * Interval - MinInstant
  }

  /** The rows of windows `0` to `k - 1`, each fetched in turn. */
  function Collected(dir: Direction, now: int, k: nat, fetch: WindowFetch): Option<seq<Row>>
  {
    if k == 0 then Some([])
    else
      match Collected(dir, now, k - 1, fetch)
      case None => None
      case Some(acc) =>
        match fetch(WindowAt(dir, now, k - 1))
        case None => None
        case Some(rows) => Some(acc + rows)
  }

  /** The loop from its `k`-th round on, with `acc` collected so far: the
      rows collected and the number of windows fetched when it stops. */
  function Run(dir: Direction, now: int, n: int, k: nat, acc: seq<Row>, fetch: WindowFetch)
    : Option<(seq<Row>, nat)>
    decreases Distance(dir, now, k)
  {
    if Continues(dir, WindowAt(dir, now, k)) && |acc| < n then
      assert (k + 1) * Interval == k * Interval + Interval;
      match fetch(WindowAt(dir, now, k))
      case None => None
      case Some(rows) => Run(dir, now, n, k + 1, acc + rows, fetch)
    else Some((acc, k))
  }

  /** `list[0:n]`. */
  function Slice<T>(s: seq<T>, n: int): (r: seq<T>)
    ensures |r| == if n >= 0 then Min(n, |s|) else Max(0, |s| + n)
    ensures r == s[..|r|]
  {
    if n >= |s| then s
    else if n >= 0 then s[..n]
    else if |s| + n > 0 then s[..|s| + n]
    else []
  }

  function Min(a: int, b: int): int { if a < b then a else b }
  function Max(a: int, b: int): int { if a < b then b else a }

  /** The three returns after the loop: the first `n` when there are that
      many, otherwise everything collected (which is `[]` when nothing
      was). */
  function Head<T>(s: seq<T>, n: int): seq<T>
  {
    if |s| >= n then Slice(s, n)
    else if |s| > 0 then s
    else []
  }

  /** `fetch_next_n_events(n)` (`Forward`) and `fetch_last_n_events(n)`
      (`Backward`) at the instant `now`. */
  function NSpec(dir: Direction, now: int, n: int, fetch: WindowFetch): Option<seq<Row>>
  {
    if !StartsInRange(dir, now) then None
    else
      match Run(dir, now, n, 0, [], fetch)
      case None => None
      case Some((acc, _)) => Some(Head(acc, n))
  }

  // ---------------------------------------------------------------------
  // fetch_next_n_events, fetch_last_n_events

  /** `fetch_next_n_events(n)` with `datetime.now()` given as `now`. */
  method FetchNextNEvents(n: int, now: Stamp, search: Search, clock: Clock)
    returns (ok: bool, parsed: seq<ParsedEvent>, events: seq<RawEvent>)
    ensures ok <==> NSpec(Forward, Seconds(now), n, Fetcher(search, false, clock)).Some?
    ensures ok ==> Matches(parsed, events, NSpec(Forward, Seconds(now), n, Fetcher(search, false, clock)).value)
  {
    var start := Seconds(now);
    if start + Interval > MaxInstant {
      return false, [], [];
    }
    var parsedList: seq<ParsedEvent> := [];
    var eventsList: seq<RawEvent> := [];
    var currentStart := start;
    var currentEnd := start + Interval;
    ghost var fetch := Fetcher(search, false, clock);
    ghost var k: nat := 0;
    ghost var acc: seq<Row> := [];
    while currentEnd <= MaxInstant - Interval && |eventsList| < n
      invariant Window(currentStart, currentEnd) == WindowAt(Forward, start, k)
      invariant Matches(parsedList, eventsList, acc)
      invariant Run(Forward, start, n, 0, [], fetch) == Run(Forward, start, n, k, acc, fetch)
      decreases MaxInstant - currentEnd
    {
      var fetched, p, e := FetchWindow(Window(currentStart, currentEnd), false, search, clock, fetch);
      if !fetched {
        RunFails(Forward, start, n, k, acc, fetch);
        return false, [], [];
      }
      ghost var rows := fetch(WindowAt(Forward, start, k)).value;
      RunStep(Forward, start, n, k, acc, rows, fetch);
      MatchesAppend(parsedList, eventsList, acc, p, e, rows);
      eventsList := eventsList + e;
      parsedList := parsedList + p;
      acc := acc + rows;
      currentStart := currentStart + Interval;
      currentEnd := currentEnd + Interval;
      k := k + 1;
    }
    assert Run(Forward, start, n, k, acc, fetch) == Some((acc, k));
    MatchesHead(parsedList, eventsList, acc, n);
    ok, parsed, events := true, Head(parsedList, n), Head(eventsList, n);
  }

  /** `fetch_last_n_events(n)` with `datetime.now()` given as `now`. */
  method FetchLastNEvents(n: int, now: Stamp, search: Search, clock: Clock)
    returns (ok: bool, parsed: seq<ParsedEvent>, events: seq<RawEvent>)
    ensures ok <==> NSpec(Backward, Seconds(now), n, Fetcher(search, true, clock)).Some?
    ensures ok ==> Matches(parsed, events, NSpec(Backward, Seconds(now), n, Fetcher(search, true, clock)).value)
  {
    var start := Seconds(now);
    if start - Interval < MinInstant {
      return false, [], [];
    }
    var parsedList: seq<ParsedEvent> := [];
    var eventsList: seq<RawEvent> := [];
    var currentEnd := start;
    var currentStart := start - Interval;
    ghost var fetch := Fetcher(search, true, clock);
    ghost var k: nat := 0;
    ghost var acc: seq<Row> := [];
    while currentStart > MinInstant + Interval && |eventsList| < n
      invariant Window(currentStart, currentEnd) == WindowAt(Backward, start, k)
      invariant Matches(parsedList, eventsList, acc)
      invariant Run(Backward, start, n, 0, [], fetch) == Run(Backward, start, n, k, acc, fetch)
      decreases currentStart
    {
      var fetched, p, e := FetchWindow(Window(currentStart, currentEnd), true, search, clock, fetch);
      if !fetched {
        RunFails(Backward, start, n, k, acc, fetch);
        return false, [], [];
      }
      ghost var rows := fetch(WindowAt(Backward, start, k)).value;
      RunStep(Backward, start, n, k, acc, rows, fetch);
      MatchesAppend(parsedList, eventsList, acc, p, e, rows);
      eventsList := eventsList + e;
      parsedList := parsedList + p;
      acc := acc + rows;
      currentStart := currentStart - Interval;
      currentEnd := currentEnd - Interval;
      k := k + 1;
    }
    assert Run(Backward, start, n, k, acc, fetch) == Some((acc, k));
    MatchesHead(parsedList, eventsList, acc, n);
    ok, parsed, events := true, Head(parsedList, n), Head(eventsList, n);
  }

  /** `fetch_events` as the walks call it, stated through `fetch`. */
  method FetchWindow(w: Window, reverse: bool, search: Search, clock: Clock, ghost fetch: WindowFetch)
    returns (ok: bool, parsed: seq<ParsedEvent>, events: seq<RawEvent>)
    requires fetch == Fetcher(search, reverse, clock)
    ensures ok <==> fetch(w).Some?
    ensures ok ==> Matches(parsed, events, fetch(w).value)
  {
    ok, parsed, events := FetchEvents(w, reverse, search, clock);
  }

  /** A failing fetch ends the loop with a failure. */
  lemma RunFails(dir: Direction, now: int, n: int, k: nat, acc: seq<Row>, fetch: WindowFetch)
    requires Continues(dir, WindowAt(dir, now, k)) && |acc| < n
    requires fetch(WindowAt(dir, now, k)).None?
    ensures Run(dir, now, n, k, acc, fetch).None?
  {
  }

  /** One round of the loop, as `Run` takes it. */
  lemma RunStep(dir: Direction, now: int, n: int, k: nat, acc: seq<Row>, rows: seq<Row>, fetch: WindowFetch)
    requires Continues(dir, WindowAt(dir, now, k)) && |acc| < n
    requires fetch(WindowAt(dir, now, k)) == Some(rows)
    ensures Run(dir, now, n, k, acc, fetch) == Run(dir, now, n, k + 1, acc + rows, fetch)
  {
  }

  lemma MatchesAppend(parsed: seq<ParsedEvent>, events: seq<RawEvent>, acc: seq<Row>,
                      p: seq<ParsedEvent>, e: seq<RawEvent>, rows: seq<Row>)
    requires Matches(parsed, events, acc) && Matches(p, e, rows)
    ensures Matches(parsed + p, events + e, acc + rows)
  {
    var pp, ee, rr := parsed + p, events + e, acc + rows;
    forall i | 0 <= i < |rr|
      ensures pp[i].View() == rr[i].view && ee[i].data == rr[i].data && ee[i].Attributes() == rr[i].attrs
    {
      if i >= |acc| {
        assert pp[i] == p[i - |acc|] && ee[i] == e[i - |acc|] && rr[i] == rows[i - |acc|];
      }
    }
  }

  lemma MatchesHead(parsed: seq<ParsedEvent>, events: seq<RawEvent>, acc: seq<Row>, n: int)
    requires Matches(parsed, events, acc)
    ensures Matches(Head(parsed, n), Head(events, n), Head(acc, n))
  {
  }

  // ---------------------------------------------------------------------
  // Properties of fetch_events

  /** Every fetched row keeps what the document said: a start and an end
      were read, the title is the summary read or "No Title", the start
      stamp parses (so the sort key is that instant) and a spoken date is
      set. */
  lemma RowFacts(doc: string, clock: Clock)
    ensures Readable(doc, clock) ==>
      var row := RowOf(doc, clock);
      row.attrs.start.Some? && row.attrs.end.Some? &&
      row.view.summary == (if row.attrs.summary.Some? then row.attrs.summary.value else "No Title") &&
      ParseUtc(row.view.start).Some? && SortKey(row.view) == Seconds(ParseUtc(row.view.start).value) &&
      row.view.dateResponse.Some?
  {
    if Readable(doc, clock) {
      var a := Extract(doc).value;
      ConstructTitle(a);
      var v := Construct(a).value;
      NormalizeDatesText(v);
      RenderFails(NormalizeDates(v).value, FetchOffset, clock);
    }
  }

  /** A fetched row's attributes and title come from the document itself:
      start and end are the values of its last DTSTART and DTEND lines, and
      the title is the value of its last SUMMARY line, or "No Title" when no
      line names SUMMARY. */
  lemma {:induction false} RowFromDocument(doc: string, clock: Clock)
    ensures Readable(doc, clock) ==>
      var lines := SplitLines(doc);
      var row := RowOf(doc, clock);
      LastOfKey(lines, StartKey).Some? && row.attrs.start == ValueOf(LastOfKey(lines, StartKey).value) &&
      LastOfKey(lines, EndKey).Some? && row.attrs.end == ValueOf(LastOfKey(lines, EndKey).value) &&
      (LastOfKey(lines, SummaryKey).Some? ==> ValueOf(LastOfKey(lines, SummaryKey).value) == Some(row.view.summary)) &&
      (LastOfKey(lines, SummaryKey).None? ==> row.view.summary == "No Title")
  {
    if Readable(doc, clock) {
      var row := RowOf(doc, clock);
      assert row.attrs == Extract(doc).value;
      RowFacts(doc, clock);
      ExtractLastWins(doc);
    }
  }

  /** The sort puts every row in exactly once, by start ascending
      (descending when `reverse`), and rows that start at the same instant
      in their original order. */
  lemma SortRowsCorrect(rows: seq<Row>, reverse: bool)
    ensures var r := SortRows(rows, reverse);
      var o := SortOrderBy(Keys(rows), reverse);
      IsPermutation(o, |rows|) &&
      (forall i :: 0 <= i < |r| ==> r[i] == rows[o[i]]) &&
      (forall i, j :: 0 <= i < j < |r| ==>
        if reverse then SortKey(r[i].view) >= SortKey(r[j].view) else SortKey(r[i].view) <= SortKey(r[j].view)) &&
      (forall i, j :: 0 <= i < j < |r| && SortKey(r[i].view) == SortKey(r[j].view) ==> o[i] < o[j])
  {
    var r := SortRows(rows, reverse);
    var keys := Keys(rows);
    var o := SortOrderBy(keys, reverse);
    SortOrderByCorrect(keys, reverse);
    assert forall i :: 0 <= i < |r| ==> r[i] == rows[o[i]];
  }

  /** `fetch_events` returns the fetched records rearranged: every record
      exactly once (`Unsorted` holds them in the order the server returned
      the documents, each read by `RowOf`), by start ascending (descending
      when `reverse`), and records that start at the same instant in the
      order the server returned them. */
  lemma FetchSorted(docs: seq<string>, reverse: bool, clock: Clock)
    requires FetchSpec(docs, reverse, clock).Some?
    ensures var r := FetchSpec(docs, reverse, clock).value;
      var rows := Unsorted(docs, clock);
      |r| == |docs| &&
      (forall i, j :: 0 <= i < j < |r| ==>
        if reverse then SortKey(r[i].view) >= SortKey(r[j].view) else SortKey(r[i].view) <= SortKey(r[j].view)) &&
      exists o :: IsPermutation(o, |docs|) &&
        (forall i :: 0 <= i < |r| ==> r[i] == rows[o[i]]) &&
        (forall i, j :: 0 <= i < j < |r| && SortKey(r[i].view) == SortKey(r[j].view) ==> o[i] < o[j])
  {
    var rows := Unsorted(docs, clock);
    assert FetchSpec(docs, reverse, clock).value == SortRows(rows, reverse);
    SortRowsCorrect(rows, reverse);
  }

  /** A search that returns nothing gives two empty lists. */
  lemma FetchNothing(reverse: bool, clock: Clock)
    ensures FetchSpec([], reverse, clock) == Some([])
  {
  }

  // ---------------------------------------------------------------------
  // Properties of the walks

  /** Each window follows the previous one at a distance of `Interval`,
      forward or backward. */
  lemma WindowsShift(dir: Direction, now: int, k: nat)
    ensures var w := WindowAt(dir, now, k);
      var v := WindowAt(dir, now, k + 1);
      w.end - w.start == Interval &&
      if dir == Forward then v.start == w.end && v.end == w.end + Interval
      else v.end == w.start && v.start == w.start - Interval
  {
    assert (k + 1) * Interval == k * Interval + Interval;
    assert (k + 2) * Interval == k * Interval + 2 * Interval;
  }

  /** What has been collected after `k` windows is a prefix of what is
      collected after more. */
  lemma {:induction false} CollectedGrows(dir: Direction, now: int, j: nat, k: nat, fetch: WindowFetch)
    requires j <= k && Collected(dir, now, k, fetch).Some?
    ensures Collected(dir, now, j, fetch).Some?
    ensures var a := Collected(dir, now, j, fetch).value;
      var b := Collected(dir, now, k, fetch).value;
      |a| <= |b| && a == b[..|a|]
    decreases k
  {
    if j < k {
      CollectedGrows(dir, now, j, k - 1, fetch);
    }
  }

  /** The loop run from round `k`: when it completes, after `K` windows,
      it holds the rows of windows `0` to `K - 1`, it went on exactly
      while the count was below `n` and the bound was not reached, and it
      stopped at the first round where one of those failed. */
  lemma {:induction false} RunMeaning(dir: Direction, now: int, n: int, k: nat, acc: seq<Row>,
                                      fetch: WindowFetch)
    requires Collected(dir, now, k, fetch) == Some(acc)
    requires Run(dir, now, n, k, acc, fetch).Some?
    ensures var (r, K) := Run(dir, now, n, k, acc, fetch).value;
      k <= K && Collected(dir, now, K, fetch) == Some(r) &&
      (|r| >= n || !Continues(dir, WindowAt(dir, now, K))) &&
      forall j :: k <= j < K ==>
        Continues(dir, WindowAt(dir, now, j)) && Collected(dir, now, j, fetch).Some? &&
        |Collected(dir, now, j, fetch).value| < n
    decreases Distance(dir, now, k)
  {
    if Continues(dir, WindowAt(dir, now, k)) && |acc| < n {
      assert (k + 1) * Interval == k * Interval + Interval;
      var rows := fetch(WindowAt(dir, now, k)).value;
      assert Collected(dir, now, k + 1, fetch) == Some(acc + rows);
      RunMeaning(dir, now, n, k + 1, acc + rows, fetch);
    }
  }

  /** `fetch_next_n_events` and `fetch_last_n_events`: the windows are
      fetched in order until `n` events are collected or the bound is
      reached, and the result is the first `n` of the collected events
      (all of them when there are fewer, none when `n <= 0`). */
  lemma NSpecMeaning(dir: Direction, now: int, n: int, fetch: WindowFetch)
    requires NSpec(dir, now, n, fetch).Some?
    ensures StartsInRange(dir, now)
    ensures Run(dir, now, n, 0, [], fetch).Some?
    ensures var K := Run(dir, now, n, 0, [], fetch).value.1;
      var res := NSpec(dir, now, n, fetch).value;
      Collected(dir, now, K, fetch).Some? &&
      var all := Collected(dir, now, K, fetch).value;
      (|all| >= n || !Continues(dir, WindowAt(dir, now, K))) &&
      (forall j :: 0 <= j < K ==>
        Continues(dir, WindowAt(dir, now, j)) && Collected(dir, now, j, fetch).Some? &&
        |Collected(dir, now, j, fetch).value| < n) &&
      |res| == (if n <= 0 then 0 else Min(n, |all|)) && res == all[..|res|]
  {
    RunMeaning(dir, now, n, 0, [], fetch);
  }
}
