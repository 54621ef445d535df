/** What happens to an event written by `create_event` when the server
    hands its document back unchanged and it goes through the reading
    steps of `fetch_events` (`get_title_and_time_of_events`, then
    `create_parsed_date_objects`). */
module Lifecycle {
  import opened Text
  import opened DateTimes
  import opened Failures
  import opened Ordinal
  import opened ICal
  import opened Events

  /** The same day at 00:00:00. */
  function Midnight(t: Stamp): (m: Stamp)
    ensures m.year == t.year && m.month == t.month && m.day == t.day
    ensures m.hour == 0 && m.minute == 0 && m.second == 0
  {
    t.(hour := 0, minute := 0, second := 0)
  }

  /** A full-day event comes back as a record whose stamps are its two
      dates at midnight UTC, with its stripped title, rendered as `Render`
      says: by `FullDayExactly` it has no time span exactly when the end
      date is the day after the start date, and by `RenderFails` reading it
      fails only when the end date is 0001-01-01. */
  lemma FullDayLifecycle(uid: string, now: Stamp, title: string, begin: Stamp, end: Stamp,
                         rule: Option<string>, offset: int, clock: Clock)
    requires '\n' !in uid && '\n' !in title
    requires !Contains(title, "DTSTART") && !Contains(title, "DTEND")
    requires rule.Some? ==> '\n' !in rule.value && !Contains(rule.value, "DTSTART") &&
                            !Contains(rule.value, "DTEND") && !Contains(rule.value, "SUMMARY")
    ensures Extract(CreateEvent(uid, now, title, begin, end, rule, true)).Ok?
    ensures var w := EventView(Strip(title), FormatDate(begin) + "T000000Z", FormatDate(end) + "T000000Z", None, None);
      Build(Extract(CreateEvent(uid, now, title, begin, end, rule, true)).value, offset, clock) ==
        Render(w, offset, clock) &&
      ParseUtc(w.start) == Some(Midnight(begin)) && ParseUtc(w.end) == Some(Midnight(end))
  {
    CreateThenExtract(uid, now, title, begin, end, rule, true);
    NormalizeFullDay(Strip(title), begin, end);
    ParseFormatUtc(Midnight(begin));
    ParseFormatUtc(Midnight(end));
  }

  /** `parse_dates` on two `%Y%m%d` dates. */
  lemma NormalizeFullDay(t: string, begin: Stamp, end: Stamp)
    ensures var b := Midnight(begin);
      var e := Midnight(end);
      NormalizeDates(EventView(t, FormatDate(begin), FormatDate(end), None, None)) ==
        Ok(EventView(t, FormatUtc(b), FormatUtc(e), None, None)) &&
      FormatUtc(b) == FormatDate(begin) + "T000000Z" && FormatUtc(e) == FormatDate(end) + "T000000Z"
  {
    var v := EventView(t, FormatDate(begin), FormatDate(end), None, None);
    FormatDateLayout(begin);
    FormatDateLayout(end);
    ParseFormatDate(begin);
    ParseFormatDate(end);
    MidnightText(v.start);
    MidnightText(v.end);
  }

  /** A timed event is written with a local `%Y%m%dT%H%M%S` stamp and no
      trailing 'Z', which `%Y%m%dT%H%M%SZ` does not accept: a document
      handed back unchanged cannot be read. Only the server's expansion to
      UTC makes such an event readable. */
  lemma TimedDocumentUnreadable(uid: string, now: Stamp, title: string, begin: Stamp, end: Stamp,
                                rule: Option<string>, offset: int, clock: Clock)
    requires '\n' !in uid && '\n' !in title
    requires !Contains(title, "DTSTART") && !Contains(title, "DTEND")
    requires rule.Some? ==> '\n' !in rule.value && !Contains(rule.value, "DTSTART") &&
                            !Contains(rule.value, "DTEND") && !Contains(rule.value, "SUMMARY")
    ensures Extract(CreateEvent(uid, now, title, begin, end, rule, false)).Ok?
    ensures Build(Extract(CreateEvent(uid, now, title, begin, end, rule, false)).value, offset, clock) ==
            Err(BadTimestamp)
  {
    CreateThenExtract(uid, now, title, begin, end, rule, false);
    var a := Fields(Some(FormatLocal(begin)), Some(FormatLocal(end)), Some(Strip(title)));
    var v := EventView(Strip(title), FormatLocal(begin), FormatLocal(end), None, None);
    assert Construct(a) == Ok(v);
    assert |FormatLocal(begin)| == 15 && |FormatLocal(end)| == 15;
    assert NormalizeDates(v) == Ok(v);
    assert ParseUtc(v.start).None?;
  }
}
