/** The two kinds of event record the calendar layer works with, and the
    steps that fill them in place: `get_title_and_time_of_events` sets the
    start, end and summary of each fetched record; `create_parsed_date_objects`
    builds one `ParsedEvent` per record, which `parse_dates` and
    `generate_output_date_string` then complete. Each per-record step is
    specified by a function on values (`Scan`, `Construct`,
    `NormalizeDates`, `Render`), and the properties are proved about those. */
module Events {
  import opened Text
  import opened DateTimes
  import opened Ordinal
  import opened ICal
  import opened Failures

  /** What `time.localtime(time.mktime(t) + 3600 * h)` gives on the host:
      the wall-clock time `h` hours after `t`, read in the host's time
      zone. */
  type Clock = (Stamp, int) -> Stamp

  /** A record returned by the server search: its iCalendar document and
      the three attributes read out of it (`None` until a line sets them). */
  class RawEvent {
    const data: string
    var start: Option<string>
    var end: Option<string>
    var summary: Option<string>

    constructor (data: string)
      ensures this.data == data && Attributes() == NoFields
    {
      this.data := data;
      start, end, summary := None, None, None;
    }

    function Attributes(): Fields
      reads this
    {
      Fields(start, end, summary)
    }

    /** The inner loop of `get_title_and_time_of_events`: every line of the
        document that names DTSTART, DTEND or SUMMARY sets that attribute
        to the stripped text after its first ':'. */
    method ReadAttributes() returns (ok: bool)
      modifies this
      ensures ok <==> Scan(SplitLines(data), old(Attributes())).Ok?
      ensures ok ==> Attributes() == Scan(SplitLines(data), old(Attributes())).value
    {
      var lines := SplitLines(data);
      var j := 0;
      while j < |lines|
        invariant 0 <= j <= |lines|
        invariant Scan(lines, old(Attributes())) == Scan(lines[j..], Attributes())
      {
        var line := lines[j];
        assert lines[j..][0] == line && lines[j..][1..] == lines[j + 1..];
        if Contains(line, "DTSTART") {
          match AfterFirst(line, ':') {
            case None => return false;
            case Some(v) => start := Some(Strip(v));
          }
        } else if Contains(line, "DTEND") {
          match AfterFirst(line, ':') {
            case None => return false;
            case Some(v) => end := Some(Strip(v));
          }
        } else if Contains(line, "SUMMARY") {
          match AfterFirst(line, ':') {
            case None => return false;
            case Some(v) => summary := Some(Strip(v));
          }
        }
        j := j + 1;
      }
      assert lines[j..] == [];
      return true;
    }
  }

  /** The state of a `ParsedEvent`. */
  datatype EventView = EventView(summary: string, start: string, end: string,
                                 dateResponse: Option<string>, time: Option<string>)

  /** The view model the dialogs read: title, start and end stamps, the
      spoken date and, for timed events, the spoken time span. */
  class ParsedEvent {
    var summary: string
    var start: string
    var end: string
    var dateResponse: Option<string>
    var time: Option<string>

    constructor (summary: string, start: string, end: string)
      ensures View() == EventView(summary, start, end, None, None)
    {
      this.summary, this.start, this.end := summary, start, end;
      dateResponse, time := None, None;
    }

    function View(): EventView
      reads this
    {
      EventView(summary, start, end, dateResponse, time)
    }

    /** One iteration of `parse_dates`. */
    method ParseDates() returns (ok: bool)
      modifies this
      ensures ok <==> NormalizeDates(old(View())).Ok?
      ensures ok ==> View() == NormalizeDates(old(View())).value
    {
      if |start| == 8 && |end| == 8 {
        var s := ParseDate(start);
        if s.None? {
          return false;
        }
        start := FormatUtc(s.value);
        var e := ParseDate(end);
        if e.None? {
          return false;
        }
        end := FormatUtc(e.value);
      }
      return true;
    }

    /** One iteration of `generate_output_date_string`. */
    method GenerateOutputDateString(offset: int, clock: Clock) returns (ok: bool)
      modifies this
      ensures ok <==> Render(old(View()), offset, clock).Ok?
      ensures ok ==> View() == Render(old(View()), offset, clock).value
    {
      var s := ParseUtc(start);
      if s.None? {
        return false;
      }
      var e := ParseUtc(end);
      if e.None? {
        return false;
      }
      var st, en := s.value, e.value;
      if DayNumber(en.year, en.month, en.day) == 1 {
        return false;
      }
      if Seconds(en) - 86400 == Seconds(st) {
        dateResponse := Some(DateResponse(st, clock(st, offset)));
        time := None;
      } else {
        dateResponse := Some(DateResponse(st, clock(st, 0)));
        time := Some("from " + Clock12(clock(st, offset)) + " to " + Clock12(clock(en, offset)));
      }
      return true;
    }
  }

  // ---------------------------------------------------------------------
  // The per-record steps on values

  /** The first loop of `create_parsed_date_objects`: title "No Title" when
      no SUMMARY line was read; a record without a start or end has no such
      attribute, and reading it fails. */
  function Construct(a: Fields): Result<EventView>
  {
    if a.start.None? || a.end.None? then Err(MissingField)
    else Ok(EventView(if a.summary.Some? then a.summary.value else "No Title",
                      a.start.value, a.end.value, None, None))
  }

  /** `parse_dates` on one event: two 8-character dates become midnight
      UTC stamps; anything else is left alone. */
  function NormalizeDates(v: EventView): Result<EventView>
  {
    if |v.start| == 8 && |v.end| == 8 then
      match ParseDate(v.start)
      case None => Err(BadTimestamp)
      case Some(s) =>
        match ParseDate(v.end)
        case None => Err(BadTimestamp)
        case Some(e) => Ok(v.(start := FormatUtc(s), end := FormatUtc(e)))
    else Ok(v)
  }

  /** `%I:%M%p` in the C locale. */
  function Clock12(t: Stamp): string
  {
    Pad(if t.hour % 12 == 0 then 12 else t.hour % 12, 2) + ":" + Pad(t.minute, 2) +
    (if t.hour < 12 then "AM" else "PM")
  }

  /** `on <weekday of start>, <ordinal-corrected "%dth of %B" of local>`. */
  function DateResponse(start: Stamp, local: Stamp): string
  {
    "on " + WeekdayName(Weekday(start)) + ", " + CheckOrdinal(DayPhrase(Pad(local.day, 2), local.month))
  }

  /** What `generate_output_date_string` sets on an event: the spoken date
      and, for a timed event, the spoken time span. */
  datatype Speech = Speech(date: string, time: Option<string>)

  /** `generate_output_date_string` on a pair of stamps. Both must parse as
      `%Y%m%dT%H%M%SZ`, and the end must not fall on 0001-01-01, where
      subtracting a day overflows. A full-day event (end exactly one day
      after start) gets its date from the clock shifted by `offset` hours
      and no time; any other event gets its date from the unshifted clock
      and its time span from the shifted one. */
  function Speak(start: string, end: string, offset: int, clock: Clock): Result<Speech>
  {
    match ParseUtc(start)
    case None => Err(BadTimestamp)
    case Some(s) =>
      match ParseUtc(end)
      case None => Err(BadTimestamp)
      case Some(e) =>
        if DayNumber(e.year, e.month, e.day) == 1 then Err(DateOverflow)
        else if Seconds(e) - 86400 == Seconds(s) then
          Ok(Speech(DateResponse(s, clock(s, offset)), None))
        else
          Ok(Speech(DateResponse(s, clock(s, 0)),
                    Some("from " + Clock12(clock(s, offset)) + " to " + Clock12(clock(e, offset)))))
  }

  /** `generate_output_date_string` on one event: only the spoken fields
      change, and they depend only on the two stamps. */
  function Render(v: EventView, offset: int, clock: Clock): Result<EventView>
  {
    match Speak(v.start, v.end, offset, clock)
    case Err(f) => Err(f)
    case Ok(sp) => Ok(v.(dateResponse := Some(sp.date), time := sp.time))
  }

  /** The whole of `create_parsed_date_objects` for one record. */
  function Build(a: Fields, offset: int, clock: Clock): Result<EventView>
  {
    match Construct(a)
    case Err(f) => Err(f)
    case Ok(v) =>
      match NormalizeDates(v)
      case Err(f) => Err(f)
      case Ok(w) => Render(w, offset, clock)
  }

  // ---------------------------------------------------------------------
  // Properties of the per-record steps

  /** The record is built exactly when the document gave a start and an
      end; its title is the summary read, or "No Title". */
  lemma ConstructTitle(a: Fields)
    ensures Construct(a).Ok? <==> a.start.Some? && a.end.Some?
    ensures Construct(a).Ok? ==>
      Construct(a).value.summary == (if a.summary.Some? then a.summary.value else "No Title") &&
      Construct(a).value.start == a.start.value && Construct(a).value.end == a.end.value &&
      Construct(a).value.dateResponse.None? && Construct(a).value.time.None?
  {
  }

  /** A date that parses as `%Y%m%d` comes back from `%Y%m%dT%H%M%SZ` as
      itself followed by "T000000Z". */
  lemma MidnightText(s: string)
    requires ParseDate(s).Some?
    ensures FormatUtc(ParseDate(s).value) == s + "T000000Z"
  {
    var t := ParseDate(s).value;
    FormatParseDate(s);
    assert Pad(0, 2) == "00" by {
      assert Pad(0, 2)[0] == '0' && Pad(0, 2)[1] == '0' by {
        PadValue(0, 2);
        ValuePad(Pad(0, 2));
        DigitsOfZero(Pad(0, 2));
      }
    }
    assert "T" + "00" + "00" + "00" + "Z" == "T000000Z";
  }

  lemma DigitsOfZero(s: string)
    requires |s| == 2 && AllDigits(s) && DigitsValue(s) == 0
    ensures s[0] == '0' && s[1] == '0'
  {
    assert s[..1] + [s[1]] == s;
    assert DigitsValue(s) == DigitsValue(s[..1]) * 10 + (s[1] as int - '0' as int);
    assert s[..1] == [s[0]];
    assert [s[0]][..0] + [s[0]] == [s[0]];
    assert DigitsValue([s[0]]) == DigitsValue([]) * 10 + (s[0] as int - '0' as int);
  }

  /** `parse_dates`: when both stamps are 8 characters long, each becomes its
      own 8 characters followed by "T000000Z" (or the step fails when one
      is not a date); otherwise neither is touched. Nothing else changes. */
  lemma NormalizeDatesText(v: EventView)
    ensures NormalizeDates(v) ==
      if |v.start| == 8 && |v.end| == 8 then
        if ParseDate(v.start).Some? && ParseDate(v.end).Some? then
          Ok(v.(start := v.start + "T000000Z", end := v.end + "T000000Z"))
        else Err(BadTimestamp)
      else Ok(v)
  {
    if |v.start| == 8 && |v.end| == 8 && ParseDate(v.start).Some? && ParseDate(v.end).Some? {
      MidnightText(v.start);
      MidnightText(v.end);
    }
  }

  /** Normalising again changes nothing. */
  lemma NormalizeDatesIdempotent(v: EventView)
    requires NormalizeDates(v).Ok?
    ensures NormalizeDates(NormalizeDates(v).value) == NormalizeDates(v)
  {
    NormalizeDatesText(v);
    NormalizeDatesText(NormalizeDates(v).value);
  }

  /** Rendering fails exactly when a stamp does not parse or the end is on
      the first day of year 1; otherwise it sets the spoken date and
      leaves title and stamps alone. */
  lemma RenderFails(v: EventView, offset: int, clock: Clock)
    ensures Render(v, offset, clock).Err? <==>
      ParseUtc(v.start).None? || ParseUtc(v.end).None? ||
      (ParseUtc(v.end).value.year == 1 && ParseUtc(v.end).value.month == 1 && ParseUtc(v.end).value.day == 1)
    ensures Render(v, offset, clock).Ok? ==>
      var w := Render(v, offset, clock).value;
      w.summary == v.summary && w.start == v.start && w.end == v.end && w.dateResponse.Some?
  {
    if ParseUtc(v.end).Some? {
      var e := ParseUtc(v.end).value;
      DayOne(e);
    }
  }

  /** Day number 1 is 0001-01-01 and no other day. */
  lemma DayOne(e: Stamp)
    ensures DayNumber(e.year, e.month, e.day) == 1 <==> e.year == 1 && e.month == 1 && e.day == 1
  {
    DaysBeforeMonthNonNeg(e.year, e.month);
    if e.year > 1 {
      var y := e.year - 1;
      assert y / 4 >= y / 100;
      assert DaysBeforeYear(e.year) >= 365;
    } else if e.month > 1 {
      DaysBeforeMonthIncreasing(1, 1, e.month);
    }
  }

  /** Rendering again changes nothing: it reads only the stamps. */
  lemma RenderIdempotent(v: EventView, offset: int, clock: Clock)
    ensures Render(v, offset, clock).Ok? ==>
      Render(Render(v, offset, clock).value, offset, clock) == Render(v, offset, clock)
  {
    if Render(v, offset, clock).Ok? {
      var w := Render(v, offset, clock).value;
      assert w.start == v.start && w.end == v.end;
    }
  }

  /** An event is full-day (no time span) exactly when its end is the
      calendar day after its start at the same time of day. */
  lemma FullDayExactly(v: EventView, offset: int, clock: Clock)
    ensures Render(v, offset, clock).Ok? ==>
      (Render(v, offset, clock).value.time.None? <==> ParseUtc(v.end).value == NextDay(ParseUtc(v.start).value))
  {
    if Render(v, offset, clock).Ok? {
      OneDayApart(ParseUtc(v.start).value, ParseUtc(v.end).value);
    }
  }

  /** The spoken date: "on", the weekday of the start, and the day of month
      with the suffix the ordinal rule leaves, then "of" and the month
      name. The day and month are taken from the shifted clock for a
      full-day event and the unshifted one otherwise. */
  lemma SpokenDate(v: EventView, offset: int, clock: Clock)
    ensures Render(v, offset, clock).Ok? ==>
      var s := ParseUtc(v.start).value;
      var local := if Render(v, offset, clock).value.time.None? then clock(s, offset) else clock(s, 0);
      Render(v, offset, clock).value.dateResponse ==
        Some("on " + WeekdayName(Weekday(s)) + ", " + OrdinalAsWritten(local.day) + Tail(local.month))
  {
    if Render(v, offset, clock).Ok? {
      var s := ParseUtc(v.start).value;
      DateResponseOrdinal(s, clock(s, offset));
      DateResponseOrdinal(s, clock(s, 0));
    }
  }

  lemma DateResponseOrdinal(s: Stamp, local: Stamp)
    ensures DateResponse(s, local) ==
      "on " + WeekdayName(Weekday(s)) + ", " + OrdinalAsWritten(local.day) + Tail(local.month)
  {
    OrdinalDayPhrase(local.day, local.month);
  }

  /** The spoken time span of a timed event. */
  lemma SpokenTime(v: EventView, offset: int, clock: Clock)
    ensures Render(v, offset, clock).Ok? && Render(v, offset, clock).value.time.Some? ==>
      var t := Render(v, offset, clock).value.time.value;
      |t| == 23 && t[..5] == "from " && t[12..16] == " to " &&
      t[5..12] == Clock12(clock(ParseUtc(v.start).value, offset)) &&
      t[16..] == Clock12(clock(ParseUtc(v.end).value, offset))
  {
    if Render(v, offset, clock).Ok? && Render(v, offset, clock).value.time.Some? {
      var s := clock(ParseUtc(v.start).value, offset);
      var e := clock(ParseUtc(v.end).value, offset);
      Clock12Layout(s);
      Clock12Layout(e);
      SpanLayout(Clock12(s), Clock12(e));
    }
  }

  lemma SpanLayout(a: string, b: string)
    requires |a| == 7 && |b| == 7
    ensures var t := "from " + a + " to " + b;
      |t| == 23 && t[..5] == "from " && t[5..12] == a && t[12..16] == " to " && t[16..] == b
  {
    var t := "from " + a + " to " + b;
    assert t[..5] == "from ";
    assert t[5..12] == a;
    assert t[12..16] == " to ";
    assert t[16..] == b;
  }

  /** The 24-hour clock hour that a 12-hour reading names. */
  function Hour24(h12: int, pm: bool): int
  {
    if pm then (if h12 == 12 then 12 else h12 + 12) else (if h12 == 12 then 0 else h12)
  }

  lemma Clock12Layout(t: Stamp)
    ensures |Clock12(t)| == 7 && Clock12(t)[2] == ':'
    ensures AllDigits(Clock12(t)[..2]) && AllDigits(Clock12(t)[3..5])
    ensures Clock12(t)[5..] == (if t.hour < 12 then "AM" else "PM")
  {
  }

  /** The 12-hour reading determines the time of day: the hour field
      (01 to 12), the minute field and the AM/PM marker give back the hour
      and minute. */
  lemma Clock12Readback(t: Stamp)
    ensures var c := Clock12(t);
      1 <= DigitsValue(c[..2]) <= 12 &&
      Hour24(DigitsValue(c[..2]), c[5..] == "PM") == t.hour &&
      DigitsValue(c[3..5]) == t.minute
  {
    var h12 := if t.hour % 12 == 0 then 12 else t.hour % 12;
    var marker := if t.hour < 12 then "AM" else "PM";
    ClockParts(Pad(h12, 2), Pad(t.minute, 2), marker);
    PadValue(h12, 2);
    PadValue(t.minute, 2);
    var c := Clock12(t);
    assert DigitsValue(c[..2]) == h12;
    assert (c[5..] == "PM") == (t.hour >= 12) by {
      assert "AM"[0] != "PM"[0];
    }
    Hour24Of(t.hour);
  }

  /** Reading back the 12-hour form of an hour gives the hour. */
  lemma Hour24Of(hour: int)
    requires 0 <= hour < 24
    ensures Hour24(if hour % 12 == 0 then 12 else hour % 12, hour >= 12) == hour
  {
  }

  lemma ClockParts(h: string, m: string, marker: string)
    requires |h| == 2 && |m| == 2
    ensures var c := h + ":" + m + marker;
      c[..2] == h && c[3..5] == m && c[5..] == marker
  {
    var c := h + ":" + m + marker;
    assert c[..2] == h;
    assert c[3..5] == m;
    assert c[5..] == marker;
  }

  // ---------------------------------------------------------------------
  // The list-level loops

  /** Whether a scan succeeds does not depend on the attributes it starts
      from. */
  lemma ScanOkAnyStart(lines: seq<string>, f: Fields, g: Fields)
    ensures Scan(lines, f).Ok? <==> Scan(lines, g).Ok?
  {
    ScanFails(lines, f);
    ScanFails(lines, g);
  }

  /** Record `e`, starting from attributes `f0`, has been read in full. */
  ghost predicate ReadFrom(e: RawEvent, f0: Fields)
    reads e
  {
    Scan(SplitLines(e.data), f0).Ok? && e.Attributes() == Scan(SplitLines(e.data), f0).value
  }

  /** One step of `get_title_and_time_of_events` on a record that is either
      still at `f0` or already read from it. */
  method ReadOnce(e: RawEvent, ghost f0: Fields) returns (ok: bool)
    requires e.Attributes() == f0 || ReadFrom(e, f0)
    modifies e
    ensures ok <==> Extract(e.data).Ok?
    ensures ok ==> ReadFrom(e, f0)
  {
    ScanOkAnyStart(SplitLines(e.data), e.Attributes(), NoFields);
    if e.Attributes() != f0 {
      ScanIdempotent(SplitLines(e.data), f0);
    }
    ok := e.ReadAttributes();
  }

  /** `get_title_and_time_of_events`: reads the attributes of every record
      in turn. A record listed twice is read twice, to the same result. It
      fails (IndexError in the source) exactly when some record has a
      DTSTART, DTEND or SUMMARY line without a ':'. */
  method GetTitleAndTimeOfEvents(events: seq<RawEvent>) returns (ok: bool)
    modifies set e | e in events
    ensures ok <==> forall k :: 0 <= k < |events| ==> Extract(events[k].data).Ok?
    ensures ok ==> forall k :: 0 <= k < |events| ==>
      ReadFrom(events[k], old(events[k].Attributes()))
  {
    ghost var done: set<RawEvent> := {};
    var i := 0;
    while i < |events|
      invariant 0 <= i <= |events|
      invariant forall k :: 0 <= k < i ==> events[k] in done
      invariant forall k :: 0 <= k < i ==> Extract(events[k].data).Ok?
      invariant forall e :: e in done ==> e in events
      invariant forall e :: e in done ==> ReadFrom(e, old(e.Attributes()))
      invariant forall e :: e in events && e !in done ==> e.Attributes() == old(e.Attributes())
    {
      var e := events[i];
      ok := ReadOnce(e, old(e.Attributes()));
      if !ok {
        assert !Extract(events[i].data).Ok?;
        return;
      }
      done := done + {e};
      i := i + 1;
    }
    ok := true;
  }

  /** Event `e`, starting from view `v0`, has had its dates normalised. */
  ghost predicate Normalized(e: ParsedEvent, v0: EventView)
    reads e
  {
    NormalizeDates(v0).Ok? && e.View() == NormalizeDates(v0).value
  }

  /** One step of the `parse_dates` loop on an event that is either still
      at `v0` or already normalised from it. */
  method NormalizeOnce(e: ParsedEvent, ghost v0: EventView) returns (ok: bool)
    requires e.View() == v0 || Normalized(e, v0)
    modifies e
    ensures ok <==> NormalizeDates(v0).Ok?
    ensures ok ==> Normalized(e, v0)
  {
    if e.View() != v0 {
      NormalizeDatesIdempotent(v0);
    }
    ok := e.ParseDates();
  }

  /** One step of the `generate_output_date_string` loop on an event that
      is either still at `v0` or already rendered from it. The step is
      named `render` and pinned to `Render` only where a `Render` term
      appears, so that the loop around it reasons about `render` alone. */
  method RenderOnce(e: ParsedEvent, ghost v0: EventView, ghost render: EventView -> Result<EventView>,
                    offset: int, clock: Clock) returns (ok: bool)
    requires forall v {:trigger Render(v, offset, clock)} :: render(v) == Render(v, offset, clock)
    requires e.View() == v0 || (render(v0).Ok? && e.View() == render(v0).value)
    modifies e
    ensures ok <==> render(v0).Ok?
    ensures ok ==> e.View() == render(v0).value
  {
    assert render(v0) == Render(v0, offset, clock);
    if e.View() != v0 {
      RenderIdempotent(v0, offset, clock);
    }
    ok := e.GenerateOutputDateString(offset, clock);
  }

  /** `parse_dates` over a list of events. */
  method ParseDates(events: seq<ParsedEvent>) returns (ok: bool)
    modifies set e | e in events
    ensures ok <==> forall k :: 0 <= k < |events| ==> NormalizeDates(old(events[k].View())).Ok?
    ensures ok ==> forall k :: 0 <= k < |events| ==> Normalized(events[k], old(events[k].View()))
  {
    ghost var done: set<ParsedEvent> := {};
    var i := 0;
    while i < |events|
      invariant 0 <= i <= |events|
      invariant forall k :: 0 <= k < i ==> events[k] in done
      invariant forall e :: e in done ==> e in events
      invariant forall e :: e in done ==> Normalized(e, old(e.View()))
      invariant forall e :: e in events && e !in done ==> e.View() == old(e.View())
    {
      var e := events[i];
      ok := NormalizeOnce(e, old(e.View()));
      if !ok {
        return;
      }
      done := done + {e};
      i := i + 1;
    }
    ok := true;
  }

  /** `generate_output_date_string` over a list of events, where `render`
      is `Render` with the given offset and clock: it fails exactly when
      some event cannot be rendered, and otherwise every event holds the
      rendering of its state before the call (an event listed twice is
      rendered twice, to the same result). */
  method GenerateOutputDateString(events: seq<ParsedEvent>, ghost render: EventView -> Result<EventView>,
                                  offset: int, clock: Clock) returns (ok: bool)
    requires forall v {:trigger Render(v, offset, clock)} :: render(v) == Render(v, offset, clock)
    modifies set e | e in events
    ensures ok <==> forall k :: 0 <= k < |events| ==> render(old(events[k].View())).Ok?
    ensures ok ==> forall k :: 0 <= k < |events| ==>
      render(old(events[k].View())).Ok? && events[k].View() == render(old(events[k].View())).value
  {
    ghost var done: set<ParsedEvent> := {};
    var i := 0;
    while i < |events|
      invariant 0 <= i <= |events|
      invariant forall k :: 0 <= k < i ==> events[k] in done
      invariant forall e :: e in done ==> e in events
      invariant forall e :: e in done ==> render(old(e.View())).Ok? && e.View() == render(old(e.View())).value
      invariant forall e :: e in events && e !in done ==> e.View() == old(e.View())
    {
      var e := events[i];
      ok := RenderOnce(e, old(e.View()), render, offset, clock);
      if !ok {
        assert !render(old(events[i].View())).Ok?;
        return;
      }
      done := done + {e};
      i := i + 1;
    }
    ok := true;
  }

  /** `create_parsed_date_objects`: one new `ParsedEvent` per record, in the
      same order, each built as `Build` describes; the records themselves
      are only read. */
  method CreateParsedDateObjects(events: seq<RawEvent>, offset: int, clock: Clock)
    returns (ok: bool, parsed: seq<ParsedEvent>)
    ensures ok <==> forall k :: 0 <= k < |events| ==> Build(events[k].Attributes(), offset, clock).Ok?
    ensures ok ==> |parsed| == |events| && forall k :: 0 <= k < |events| ==>
      fresh(parsed[k]) && Build(events[k].Attributes(), offset, clock).Ok? &&
      parsed[k].View() == Build(events[k].Attributes(), offset, clock).value
  {
    parsed := [];
    var i := 0;
    while i < |events|
      invariant 0 <= i <= |events| && |parsed| == i
      invariant forall k :: 0 <= k < i ==>
        fresh(parsed[k]) && Construct(events[k].Attributes()).Ok? &&
        parsed[k].View() == Construct(events[k].Attributes()).value
    {
      var e := events[i];
      if e.start.None? || e.end.None? {
        ok := false;
        return;
      }
      var title := if e.summary.Some? then e.summary.value else "No Title";
      var p := new ParsedEvent(title, e.start.value, e.end.value);
      parsed := parsed + [p];
      i := i + 1;
    }
    ok := ParseDates(parsed);
    if !ok {
      return;
    }
    ok := GenerateOutputDateString(parsed, v => Render(v, offset, clock), offset, clock);
  }
}
