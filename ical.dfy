/** The event document (an iCalendar text block, RFC 5545) the calendar
    layer writes with `create_event`, and the line scan with which
    `get_title_and_time_of_events` reads DTSTART, DTEND and SUMMARY back
    out of a document. */
module ICal {
  import opened Text
  import opened DateTimes
  import opened Failures

  /** The eight spaces the template leaves after the timed DTSTART value
      and after the SUMMARY value. */
  const Padding: string := "        "

  /** The text of a DTSTART or DTEND value as `create_event` writes it:
      `%Y%m%d` for a full-day event, `%Y%m%dT%H%M%S` otherwise. */
  function ValueText(t: Stamp, fullday: bool): string
  {
    if fullday then FormatDate(t) else FormatLocal(t)
  }

  /** The DTSTART line: a DATE-TIME in Europe/Berlin followed by eight
      spaces, or a DATE for a full-day event. */
  function StartLineOf(v: string, fullday: bool): string
  {
    if fullday then "DTSTART;VALUE=DATE:" + v else "DTSTART;TZID=Europe/Berlin:" + v + Padding
  }

  /** The DTEND line, in the same two forms without the trailing spaces. */
  function EndLineOf(v: string, fullday: bool): string
  {
    if fullday then "DTEND;VALUE=DATE:" + v else "DTEND;TZID=Europe/Berlin:" + v
  }

  /** The lines of the template `create_event` fills in, in order. `uid`
      stands for the SHA-1 digest of the creation time and `now` for the
      creation time itself. Timed events carry `;TZID=Europe/Berlin:` with a
      DATE-TIME value followed by eight spaces, full-day events
      `;VALUE=DATE:` with a DATE (RFC 5545 sections 3.3.4 and 3.3.5). The
      recurrence rule, when given, is a bare `FREQ=<rule>` line (section
      3.8.5.3 of RFC 5545 asks for `RRULE:FREQ=...`). */
  function EventLines(uid: string, now: Stamp, title: string, begin: Stamp, end: Stamp,
                      rule: Option<string>, fullday: bool): seq<string>
  {
    Header +
    ["UID:" + uid,
     "DTSTAMP:" + FormatLocal(now),
     StartLineOf(ValueText(begin, fullday), fullday),
     EndLineOf(ValueText(end, fullday), fullday)] +
    RuleLines(rule) +
    ["SUMMARY:" + title + Padding] +
    Footer
  }

  const ProductId: string := "PRODID:-//Sabre//Sabre VObject 4.3.0//EN"

  const Header: seq<string> :=
    ["BEGIN:VCALENDAR", "VERSION:2.0", ProductId, "BEGIN:VEVENT"]

  const Footer: seq<string> := ["END:VEVENT", "END:VCALENDAR"]

  function RuleLines(rule: Option<string>): seq<string>
  {
    if rule.Some? then ["FREQ=" + rule.value] else []
  }

  /** `create_event`: the document for an event from `begin` to `end`,
      every line ended by LF (not the CRLF of RFC 5545 section 3.1). */
  function CreateEvent(uid: string, now: Stamp, title: string, begin: Stamp, end: Stamp,
                       rule: Option<string>, fullday: bool): string
  {
    Terminate(EventLines(uid, now, title, begin, end, rule, fullday))
  }

  /** Each line followed by a newline. */
  function Terminate(lines: seq<string>): string
  {
    if |lines| == 0 then "" else lines[0] + "\n" + Terminate(lines[1..])
  }

  lemma {:induction false} TerminateIsJoin(lines: seq<string>)
    ensures Terminate(lines) == JoinLines(lines + [""])
    decreases |lines|
  {
    if |lines| > 0 {
      assert (lines + [""])[1..] == lines[1..] + [""];
      TerminateIsJoin(lines[1..]);
    }
  }

  /** Splitting newline-terminated lines gives them back, followed by the
      empty piece after the last newline. */
  lemma SplitTerminated(lines: seq<string>)
    requires NoBreaks(lines)
    ensures SplitLines(Terminate(lines)) == lines + [""]
  {
    TerminateIsJoin(lines);
    SplitJoin(lines + [""]);
  }

  /** The document is exactly its lines, each ended by LF, in the fixed
      order BEGIN:VCALENDAR, VERSION, PRODID, BEGIN:VEVENT, UID, DTSTAMP,
      DTSTART, DTEND, the FREQ line when a rule is given, SUMMARY,
      END:VEVENT, END:VCALENDAR, and the empty piece after the last LF. */
  lemma CreateEventLines(uid: string, now: Stamp, title: string, begin: Stamp, end: Stamp,
                         rule: Option<string>, fullday: bool)
    requires '\n' !in uid && '\n' !in title
    requires rule.Some? ==> '\n' !in rule.value
    ensures var lines := SplitLines(CreateEvent(uid, now, title, begin, end, rule, fullday));
      var n := if rule.Some? then 1 else 0;
      |lines| == 12 + n &&
      lines[..4] == Header && lines[4] == "UID:" + uid && lines[5] == "DTSTAMP:" + FormatLocal(now) &&
      lines[6] == StartLineOf(ValueText(begin, fullday), fullday) &&
      lines[7] == EndLineOf(ValueText(end, fullday), fullday) &&
      (rule.Some? ==> lines[8] == "FREQ=" + rule.value) &&
      lines[8 + n] == "SUMMARY:" + title + Padding && lines[9 + n..] == Footer + [""]
  {
    var vb := ValueText(begin, fullday);
    var ve := ValueText(end, fullday);
    ValueTextChars(begin, fullday);
    ValueTextChars(end, fullday);
    var body := ["UID:" + uid, "DTSTAMP:" + FormatLocal(now), StartLineOf(vb, fullday), EndLineOf(ve, fullday)];
    var sm := ["SUMMARY:" + title + Padding];
    var lines := EventLines(uid, now, title, begin, end, rule, fullday);
    assert lines == Header + body + RuleLines(rule) + sm + Footer;
    LinesNoBreak(uid, now, title, vb, ve, rule, fullday);
    SplitTerminated(lines);
    Layout(Header, body, RuleLines(rule), sm, Footer);
  }

  /** Where each part sits in the line list of a document. */
  lemma Layout(h: seq<string>, b: seq<string>, r: seq<string>, s: seq<string>, f: seq<string>)
    requires |h| == 4 && |b| == 4 && |r| <= 1 && |s| == 1
    ensures var l := h + b + r + s + f + [""];
      |l| == 10 + |r| + |f| && l[..4] == h && l[4] == b[0] && l[5] == b[1] && l[6] == b[2] && l[7] == b[3] &&
      (|r| == 1 ==> l[8] == r[0]) && l[8 + |r|] == s[0] && l[9 + |r|..] == f + [""]
  {
    var l := h + b + r + s + f + [""];
    assert l[..4] == h;
    assert l[9 + |r|..] == f + [""];
  }

  // ---------------------------------------------------------------------
  // Reading the fields back

  /** Which field a line sets: the first of DTSTART, DTEND, SUMMARY that
      occurs anywhere in it, or none. */
  datatype Key = StartKey | EndKey | SummaryKey | NoKey

  function KeyOf(line: string): Key
  {
    if Contains(line, "DTSTART") then StartKey
    else if Contains(line, "DTEND") then EndKey
    else if Contains(line, "SUMMARY") then SummaryKey
    else NoKey
  }

  /** The `start`, `end` and `summary` attributes of a record; `None` where
      the attribute has not been set. */
  datatype Fields = Fields(start: Option<string>, end: Option<string>, summary: Option<string>)

  const NoFields := Fields(None, None, None)

  function Get(f: Fields, k: Key): Option<string>
    requires k != NoKey
  {
    match k
    case StartKey => f.start
    case EndKey => f.end
    case SummaryKey => f.summary
  }

  function Set(f: Fields, k: Key, v: string): Fields
    requires k != NoKey
  {
    match k
    case StartKey => f.(start := Some(v))
    case EndKey => f.(end := Some(v))
    case SummaryKey => f.(summary := Some(v))
  }

  /** The value a keyed line carries: what follows its first ':', stripped;
      `None` where the line has no ':'. */
  function ValueOf(line: string): Option<string>
  {
    match AfterFirst(line, ':')
    case Some(v) => Some(Strip(v))
    case None => None
  }

  /** One step of the scan over a document's lines. */
  function ScanLine(f: Fields, line: string): Result<Fields>
  {
    var k := KeyOf(line);
    if k == NoKey then Ok(f)
    else match ValueOf(line)
      case None => Err(MissingColon)
      case Some(v) => Ok(Set(f, k, v))
  }

  /** The scan of `get_title_and_time_of_events` over the lines of one
      document, starting from the attributes `f` the record already has. */
  function Scan(lines: seq<string>, f: Fields): Result<Fields>
    decreases |lines|
  {
    if |lines| == 0 then Ok(f)
    else match ScanLine(f, lines[0])
      case Err(e) => Err(e)
      case Ok(g) => Scan(lines[1..], g)
  }

  /** The last line that sets field `k`, if any. */
  function LastOfKey(lines: seq<string>, k: Key): Option<string>
    decreases |lines|
  {
    if |lines| == 0 then None
    else match LastOfKey(lines[1..], k)
      case Some(l) => Some(l)
      case None => if KeyOf(lines[0]) == k then Some(lines[0]) else None
  }

  /** The scan fails exactly when some DTSTART, DTEND or SUMMARY line has
      no ':', whatever attributes the record had before. */
  lemma {:induction false} ScanFails(lines: seq<string>, f: Fields)
    ensures Scan(lines, f).Err? <==>
      exists i :: 0 <= i < |lines| && KeyOf(lines[i]) != NoKey && ':' !in lines[i]
    decreases |lines|
  {
    if |lines| > 0 {
      var r := ScanLine(f, lines[0]);
      if r.Ok? {
        ScanFails(lines[1..], r.value);
        if exists i :: 0 <= i < |lines| && KeyOf(lines[i]) != NoKey && ':' !in lines[i] {
          var i :| 0 <= i < |lines| && KeyOf(lines[i]) != NoKey && ':' !in lines[i];
          assert i > 0;
          assert lines[1..][i - 1] == lines[i];
        }
        if exists i :: 0 <= i < |lines[1..]| && KeyOf(lines[1..][i]) != NoKey && ':' !in lines[1..][i] {
          var i :| 0 <= i < |lines[1..]| && KeyOf(lines[1..][i]) != NoKey && ':' !in lines[1..][i];
          assert lines[i + 1] == lines[1..][i];
        }
      }
    }
  }

  /** Each field ends up with the value of the LAST line that sets it; a
      field no line sets keeps the value it had. */
  lemma {:induction false} ScanLastWins(lines: seq<string>, f: Fields, k: Key)
    requires k != NoKey && Scan(lines, f).Ok?
    ensures Get(Scan(lines, f).value, k) ==
      match LastOfKey(lines, k)
      case Some(l) => ValueOf(l)
      case None => Get(f, k)
    decreases |lines|
  {
    if |lines| > 0 {
      var g := ScanLine(f, lines[0]).value;
      ScanLastWins(lines[1..], g, k);
    }
  }

  /** Scanning the same document again changes nothing. */
  lemma ScanIdempotent(lines: seq<string>, f: Fields)
    requires Scan(lines, f).Ok?
    ensures Scan(lines, Scan(lines, f).value) == Scan(lines, f)
  {
    var g := Scan(lines, f).value;
    ScanFails(lines, f);
    ScanFails(lines, g);
    var h := Scan(lines, g).value;
    ScanLastWins(lines, f, StartKey);
    ScanLastWins(lines, f, EndKey);
    ScanLastWins(lines, f, SummaryKey);
    ScanLastWins(lines, g, StartKey);
    ScanLastWins(lines, g, EndKey);
    ScanLastWins(lines, g, SummaryKey);
    assert h == Fields(Get(h, StartKey), Get(h, EndKey), Get(h, SummaryKey));
    assert g == Fields(Get(g, StartKey), Get(g, EndKey), Get(g, SummaryKey));
  }

  /** `get_title_and_time_of_events` for one document: the fields a freshly
      fetched record ends up with. */
  function Extract(doc: string): Result<Fields>
  {
    Scan(SplitLines(doc), NoFields)
  }

  // ---------------------------------------------------------------------
  // Which line of a created document sets which field

  /** What `get_title_and_time_of_events` reads from a fresh record: each
      attribute is the value of the last line that names its key, or unset
      when no line does. */
  lemma ExtractLastWins(doc: string)
    ensures Extract(doc).Ok? ==>
      var lines := SplitLines(doc);
      var f := Extract(doc).value;
      f.start == (if LastOfKey(lines, StartKey).Some? then ValueOf(LastOfKey(lines, StartKey).value) else None) &&
      f.end == (if LastOfKey(lines, EndKey).Some? then ValueOf(LastOfKey(lines, EndKey).value) else None) &&
      f.summary == (if LastOfKey(lines, SummaryKey).Some? then ValueOf(LastOfKey(lines, SummaryKey).value) else None) &&
      (f.start.Some? <==> LastOfKey(lines, StartKey).Some?) &&
      (f.end.Some? <==> LastOfKey(lines, EndKey).Some?) &&
      (f.summary.Some? <==> LastOfKey(lines, SummaryKey).Some?)
  {
    if Extract(doc).Ok? {
      var lines := SplitLines(doc);
      ScanLastWins(lines, NoFields, StartKey);
      ScanLastWins(lines, NoFields, EndKey);
      ScanLastWins(lines, NoFields, SummaryKey);
      LastHasValue(lines, NoFields, StartKey);
      LastHasValue(lines, NoFields, EndKey);
      LastHasValue(lines, NoFields, SummaryKey);
    }
  }

  /** A scan that succeeds has read a value from every keyed line, so in
      particular from the last line of each key. */
  lemma {:induction false} LastHasValue(lines: seq<string>, f: Fields, k: Key)
    requires k != NoKey && Scan(lines, f).Ok?
    ensures LastOfKey(lines, k).Some? ==> ValueOf(LastOfKey(lines, k).value).Some?
    decreases |lines|
  {
    if |lines| > 0 {
      var g := ScanLine(f, lines[0]).value;
      LastHasValue(lines[1..], g, k);
    }
  }

  lemma OccursAtStart(s: string, pat: string)
    requires |pat| <= |s| && s[..|pat|] == pat
    ensures Contains(s, pat)
  {
    assert OccursAt(s, pat, 0);
  }

  /** A character of `pat` that `s` lacks keeps `pat` out of `s`. */
  lemma MissingChar(s: string, pat: string, c: char)
    requires c in pat && c !in s
    ensures !Contains(s, pat)
  {
    var j :| 0 <= j < |pat| && pat[j] == c;
    forall i | 0 <= i <= |s| ensures !OccursAt(s, pat, i) {
      if i + |pat| <= |s| {
        assert s[i..i + |pat|][j] == s[i + j] != c;
      }
    }
  }

  /** An occurrence of `pat` cannot span a character `pat` lacks. */
  lemma SplitBy(a: string, c: char, b: string, pat: string)
    requires c !in pat && !Contains(a, pat) && !Contains(b, pat)
    ensures !Contains(a + [c] + b, pat)
  {
    var s := a + [c] + b;
    forall i | 0 <= i <= |s| ensures !OccursAt(s, pat, i) {
      if i + |pat| <= |a| {
        assert s[i..i + |pat|] == a[i..i + |pat|];
        assert !OccursAt(a, pat, i);
      } else if i > |a| && i + |pat| <= |s| {
        assert s[i..i + |pat|] == b[i - |a| - 1..i - |a| - 1 + |pat|];
        assert !OccursAt(b, pat, i - |a| - 1);
      } else if i <= |a| && i + |pat| <= |s| {
        assert s[i..i + |pat|][|a| - i] == c;
      }
    }
  }

  /** No two-letter pair `[x, y]` in `s`. */
  predicate NoPair(s: string, x: char, y: char)
  {
    forall i :: 0 <= i < |s| - 1 ==> !(s[i] == x && s[i + 1] == y)
  }

  lemma NoPairNoKey(s: string, x: char, y: char, pat: string)
    requires NoPair(s, x, y) && |pat| >= 2
    requires exists j :: 0 <= j < |pat| - 1 && pat[j] == x && pat[j + 1] == y
    ensures !Contains(s, pat)
  {
    var j :| 0 <= j < |pat| - 1 && pat[j] == x && pat[j + 1] == y;
    forall i | 0 <= i <= |s| ensures !OccursAt(s, pat, i) {
      if i + |pat| <= |s| {
        assert s[i..i + |pat|][j] == s[i + j];
        assert s[i..i + |pat|][j + 1] == s[i + j + 1];
      }
    }
  }

  /** A line whose keys can only come from a prefix that holds none of them. */
  lemma KeysAfterPrefix(a: string, b: string, pat: string)
    requires |pat| > 0 && pat[0] !in a && !Contains(b, pat)
    ensures !Contains(a + b, pat)
  {
    var s := a + b;
    forall i | 0 <= i <= |s| ensures !OccursAt(s, pat, i) {
      if i < |a| && i + |pat| <= |s| {
        assert s[i..i + |pat|][0] == a[i];
      } else if i >= |a| && i + |pat| <= |s| {
        assert s[i..i + |pat|] == b[i - |a|..i - |a| + |pat|];
        assert !OccursAt(b, pat, i - |a|);
      }
    }
  }

  lemma StampChars(t: Stamp)
    ensures forall k :: 0 <= k < |FormatLocal(t)| ==> IsDigit(FormatLocal(t)[k]) || FormatLocal(t)[k] == 'T'
    ensures |FormatLocal(t)| == 15 && IsDigit(FormatLocal(t)[0]) && IsDigit(FormatLocal(t)[14])
    ensures |FormatDate(t)| == 8 && AllDigits(FormatDate(t))
  {
    FormatUtcLayout(t);
    FormatDateLayout(t);
    var u := FormatUtc(t);
    assert FormatLocal(t) == u[..15];
  }

  /** The value text of a DTSTART or DTEND line holds no letter of a key
      but possibly 'T', never 'D' nor 'S'. */
  lemma ValueTextChars(t: Stamp, fullday: bool)
    ensures PlainValue(ValueText(t, fullday))
  {
    StampChars(t);
  }

  /** DTSTAMP lines, however the time stamp reads, set no field. */
  lemma StampLineSetsNothing(now: Stamp)
    ensures KeyOf("DTSTAMP:" + FormatLocal(now)) == NoKey
  {
    var v := FormatLocal(now);
    ValueTextChars(now, false);
    assert ValueText(now, false) == v;
    var s := "DTSTAMP:" + v;
    assert s == "DTSTAMP" + [':'] + v;
    assert "DTSTAMP" != "DTSTART";
    forall i | 0 <= i <= |"DTSTAMP"| ensures !OccursAt("DTSTAMP", "DTSTART", i) {}
    MissingChar(v, "DTSTART", 'D');
    SplitBy("DTSTAMP", ':', v, "DTSTART");
    NoPairNoKey("DTSTAMP", 'E', 'N', "DTEND") by { assert "DTEND"[2] == 'E' && "DTEND"[3] == 'N'; }
    MissingChar(v, "DTEND", 'D');
    SplitBy("DTSTAMP", ':', v, "DTEND");
    NoPairNoKey("DTSTAMP", 'S', 'U', "SUMMARY") by { assert "SUMMARY"[0] == 'S' && "SUMMARY"[1] == 'U'; }
    MissingChar(v, "SUMMARY", 'S');
    SplitBy("DTSTAMP", ':', v, "SUMMARY");
  }

  /** The line that starts with `key` followed by ':' and `value`. */
  lemma KeyedLine(prefix: string, v: string, key: string)
    requires ':' !in prefix && |key| <= |prefix| && prefix[..|key|] == key
    ensures Contains(prefix + [':'] + v, key)
    ensures AfterFirst(prefix + [':'] + v, ':') == Some(v)
  {
    var line := prefix + [':'] + v;
    assert line[..|key|] == prefix[..|key|];
    OccursAtStart(line, key);
    AfterFirstAt(prefix, ':', v);
  }

  /** A line `prefix:value` with trailing blanks yields the value. */
  lemma KeyedValue(prefix: string, v: string, pad: string, key: string)
    requires ':' !in prefix && |key| <= |prefix| && prefix[..|key|] == key
    requires AllSpace(pad) && |v| > 0 && !IsSpace(v[0]) && !IsSpace(v[|v| - 1])
    ensures Contains(prefix + [':'] + (v + pad), key)
    ensures ValueOf(prefix + [':'] + (v + pad)) == Some(v)
  {
    KeyedLine(prefix, v + pad, key);
    StripAppendSpace(v, pad);
    StripUntouched(v);
  }

  /** What the value text of a DTSTART or DTEND line is made of: digits
      and at most the letter 'T'. */
  predicate PlainValue(v: string)
  {
    'D' !in v && 'S' !in v && ':' !in v && '\n' !in v &&
    |v| > 0 && !IsSpace(v[0]) && !IsSpace(v[|v| - 1])
  }

  /** The DTSTART line of a created document sets the start, to the value
      text exactly. */
  lemma StartLine(v: string, fullday: bool)
    requires PlainValue(v)
    ensures KeyOf(StartLineOf(v, fullday)) == StartKey
    ensures ValueOf(StartLineOf(v, fullday)) == Some(v)
    ensures '\n' !in StartLineOf(v, fullday)
  {
    StartLineParts(v, fullday);
    StartLineNoBreak(v, fullday);
  }

  lemma StartLineNoBreak(v: string, fullday: bool)
    requires PlainValue(v)
    ensures '\n' !in StartLineOf(v, fullday)
  {
    PaddingBlank();
  }

  lemma StartLineParts(v: string, fullday: bool)
    requires PlainValue(v)
    ensures Contains(StartLineOf(v, fullday), "DTSTART")
    ensures ValueOf(StartLineOf(v, fullday)) == Some(v)
  {
    if fullday {
      StartPrefix("DTSTART;VALUE=DATE");
      assert StartLineOf(v, fullday) == "DTSTART;VALUE=DATE" + [':'] + (v + "");
      KeyedValue("DTSTART;VALUE=DATE", v, "", "DTSTART");
    } else {
      StartPrefix("DTSTART;TZID=Europe/Berlin");
      PaddingBlank();
      assert StartLineOf(v, fullday) == "DTSTART;TZID=Europe/Berlin" + [':'] + (v + Padding);
      KeyedValue("DTSTART;TZID=Europe/Berlin", v, Padding, "DTSTART");
    }
  }

  /** The two DTSTART prefixes of the template start with the key and hold
      no ':'. */
  lemma StartPrefix(prefix: string)
    requires prefix == "DTSTART;VALUE=DATE" || prefix == "DTSTART;TZID=Europe/Berlin"
    ensures ':' !in prefix && |prefix| >= 7 && prefix[..7] == "DTSTART"
  {
  }

  lemma PaddingBlank()
    ensures AllSpace(Padding) && '\n' !in Padding && |Padding| == 8 && Padding[0] == ' '
    ensures 'D' !in Padding[1..]
  {
  }

  /** The DTEND line of a created document sets the end, to the value text
      exactly, and is not mistaken for a DTSTART line. */
  lemma EndLine(v: string, fullday: bool)
    requires PlainValue(v)
    ensures KeyOf(EndLineOf(v, fullday)) == EndKey
    ensures ValueOf(EndLineOf(v, fullday)) == Some(v)
  {
    EndLineParts(v, fullday);
    EndLineNoBreak(v, fullday);
  }

  lemma EndLineNoBreak(v: string, fullday: bool)
    requires PlainValue(v)
    ensures '\n' !in EndLineOf(v, fullday)
  {
  }

  lemma EndLineParts(v: string, fullday: bool)
    requires PlainValue(v)
    ensures Contains(EndLineOf(v, fullday), "DTEND") && !Contains(EndLineOf(v, fullday), "DTSTART")
    ensures ValueOf(EndLineOf(v, fullday)) == Some(v)
  {
    var prefix := if fullday then "DTEND;VALUE=DATE" else "DTEND;TZID=Europe/Berlin";
    EndPrefix(prefix);
    assert EndLineOf(v, fullday) == prefix + [':'] + (v + "");
    KeyedValue(prefix, v, "", "DTEND");
    NotStartKey(prefix, v);
  }

  /** The two DTEND prefixes of the template start with the key and hold
      no ':'. */
  lemma EndPrefix(prefix: string)
    requires prefix == "DTEND;VALUE=DATE" || prefix == "DTEND;TZID=Europe/Berlin"
    ensures ':' !in prefix && |prefix| >= 5 && prefix[..5] == "DTEND"
  {
  }

  lemma NotStartKey(prefix: string, v: string)
    requires prefix == "DTEND;VALUE=DATE" || prefix == "DTEND;TZID=Europe/Berlin"
    requires 'D' !in v
    ensures !Contains(prefix + [':'] + v, "DTSTART")
  {
    assert NoPair(prefix, 'T', 'S');
    assert "DTSTART"[1] == 'T' && "DTSTART"[2] == 'S';
    NoPairNoKey(prefix, 'T', 'S', "DTSTART");
    MissingChar(v, "DTSTART", 'D');
    SplitBy(prefix, ':', v, "DTSTART");
  }

  /** The SUMMARY line of a created document sets the summary to the
      stripped title, provided the title names neither DTSTART nor DTEND. */
  lemma SummaryLine(title: string)
    requires !Contains(title, "DTSTART") && !Contains(title, "DTEND") && '\n' !in title
    ensures KeyOf("SUMMARY:" + title + Padding) == SummaryKey
    ensures ValueOf("SUMMARY:" + title + Padding) == Some(Strip(title))
    ensures '\n' !in "SUMMARY:" + title + Padding
  {
    SummaryValue(title);
    SummaryNotKey(title, "DTSTART");
    SummaryNotKey(title, "DTEND");
    SummaryNoBreak(title);
  }

  lemma SummaryValue(title: string)
    ensures Contains("SUMMARY:" + title + Padding, "SUMMARY")
    ensures ValueOf("SUMMARY:" + title + Padding) == Some(Strip(title))
  {
    assert "SUMMARY:" + title + Padding == "SUMMARY" + [':'] + (title + Padding);
    KeyedLine("SUMMARY", title + Padding, "SUMMARY");
    PaddingBlank();
    StripAppendSpace(title, Padding);
  }

  lemma SummaryNotKey(title: string, key: string)
    requires key == "DTSTART" || key == "DTEND"
    requires !Contains(title, key)
    ensures !Contains("SUMMARY:" + title + Padding, key)
  {
    PaddingBlank();
    var rest := Padding[1..];
    assert title + Padding == title + [' '] + rest;
    assert key[0] == 'D' && ' ' !in key && ':' !in key;
    MissingChar(rest, key, 'D');
    SplitBy(title, ' ', rest, key);
    MissingChar("SUMMARY", key, 'D');
    assert "SUMMARY:" + title + Padding == "SUMMARY" + [':'] + (title + Padding);
    SplitBy("SUMMARY", ':', title + Padding, key);
  }

  lemma SummaryNoBreak(title: string)
    requires '\n' !in title
    ensures '\n' !in "SUMMARY:" + title + Padding
  {
    PaddingBlank();
  }

  /** The FREQ line sets no field when the rule names none. */
  lemma RuleLine(rule: string)
    requires !Contains(rule, "DTSTART") && !Contains(rule, "DTEND") && !Contains(rule, "SUMMARY")
    ensures KeyOf("FREQ=" + rule) == NoKey
  {
    KeysAfterPrefix("FREQ=", rule, "DTSTART");
    KeysAfterPrefix("FREQ=", rule, "DTEND");
    KeysAfterPrefix("FREQ=", rule, "SUMMARY");
  }

  /** The fixed lines of the template set no field. */
  lemma HeaderUnkeyed()
    ensures forall k :: 0 <= k < |Header| ==> KeyOf(Header[k]) == NoKey
  {
    CalendarLines();
    ProductLine();
    VEventLines();
  }

  lemma FooterUnkeyed()
    ensures forall k :: 0 <= k < |Footer| ==> KeyOf(Footer[k]) == NoKey
    ensures forall k :: 0 <= k < |[""]| ==> KeyOf([""][k]) == NoKey
  {
    CalendarLines();
    VEventLines();
    Lacking("", 'D', 'S');
  }

  lemma CalendarLines()
    ensures KeyOf("BEGIN:VCALENDAR") == NoKey && KeyOf("END:VCALENDAR") == NoKey
  {
    Lacking("BEGIN:VCALENDAR", 'T', 'S');
    Lacking("END:VCALENDAR", 'T', 'S');
  }

  lemma ProductLine()
    ensures KeyOf("VERSION:2.0") == NoKey
    ensures KeyOf(ProductId) == NoKey
  {
    Lacking("VERSION:2.0", 'T', 'U');
    ProductIdLacksT();
    ProductIdLacksU();
    Lacking(ProductId, 'T', 'U');
  }

  lemma ProductIdLacksT()
    ensures 'T' !in ProductId
  {
  }

  lemma ProductIdLacksU()
    ensures 'U' !in ProductId
  {
  }

  lemma VEventLines()
    ensures KeyOf("BEGIN:VEVENT") == NoKey && KeyOf("END:VEVENT") == NoKey
  {
    Lacking("BEGIN:VEVENT", 'D', 'S');
    EndEventLine();
  }

  /** A line lacking a letter both DT keys hold and a letter of SUMMARY sets
      no field. */
  lemma Lacking(s: string, dt: char, su: char)
    requires dt in "DTEND" && dt in "DTSTART" && su in "SUMMARY"
    requires dt !in s && su !in s
    ensures KeyOf(s) == NoKey
  {
    MissingChar(s, "DTSTART", dt);
    MissingChar(s, "DTEND", dt);
    MissingChar(s, "SUMMARY", su);
  }

  /** "END:VEVENT" holds every letter of DTEND, but not the pair "DT". */
  lemma EndEventLine()
    ensures KeyOf("END:VEVENT") == NoKey
  {
    var s := "END:VEVENT";
    MissingChar(s, "DTSTART", 'S');
    MissingChar(s, "SUMMARY", 'S');
    assert NoPair(s, 'D', 'T');
    assert "DTEND"[0] == 'D' && "DTEND"[1] == 'T';
    NoPairNoKey(s, 'D', 'T', "DTEND");
  }

  lemma {:induction false} ScanAppend(a: seq<string>, b: seq<string>, f: Fields)
    ensures Scan(a + b, f) == match Scan(a, f)
      case Err(e) => Err(e)
      case Ok(g) => Scan(b, g)
    decreases |a|
  {
    if |a| > 0 {
      assert (a + b)[0] == a[0];
      assert (a + b)[1..] == a[1..] + b;
      match ScanLine(f, a[0])
      case Err(_) =>
      case Ok(g) => ScanAppend(a[1..], b, g);
    } else {
      assert a + b == b;
    }
  }

  /** Lines that set no field leave the record as it is. */
  lemma {:induction false} ScanUnkeyed(lines: seq<string>, f: Fields)
    requires forall k :: 0 <= k < |lines| ==> KeyOf(lines[k]) == NoKey
    ensures Scan(lines, f) == Ok(f)
    decreases |lines|
  {
    if |lines| > 0 {
      ScanUnkeyed(lines[1..], f);
    }
  }

  predicate NoBreaks(lines: seq<string>)
  {
    forall k :: 0 <= k < |lines| ==> '\n' !in lines[k]
  }

  lemma FixedLinesNoBreak()
    ensures NoBreaks(Header) && NoBreaks(Footer) && NoBreaks([""])
  {
    HeaderNoBreak();
    assert Footer[0] == "END:VEVENT" && Footer[1] == "END:VCALENDAR";
  }

  lemma HeaderNoBreak()
    ensures NoBreaks(Header)
  {
    assert Header[0] == "BEGIN:VCALENDAR" && Header[1] == "VERSION:2.0";
    assert Header[2] == ProductId;
  }

  /** The lines from UID to DTEND: the UID line may set anything, DTSTAMP
      nothing, then DTSTART and DTEND set the start and end. */
  lemma ScanBody(uid: string, now: Stamp, vb: string, ve: string, fullday: bool, f: Fields)
    requires PlainValue(vb) && PlainValue(ve)
    ensures var body := ["UID:" + uid, "DTSTAMP:" + FormatLocal(now),
                         StartLineOf(vb, fullday), EndLineOf(ve, fullday)];
      Scan(body, f).Ok? && Scan(body, f).value.start == Some(vb) && Scan(body, f).value.end == Some(ve)
  {
    var u := "UID:" + uid;
    var d := "DTSTAMP:" + FormatLocal(now);
    var st := StartLineOf(vb, fullday);
    var en := EndLineOf(ve, fullday);
    assert ':' in u by { assert u[3] == ':'; }
    assert AfterFirst(u, ':').Some?;
    ScanOne(u, f);
    var g := Scan([u], f).value;
    StampLineSetsNothing(now);
    ScanOne(d, g);
    ScanAppend([u], [d], f);
    StartLine(vb, fullday);
    ScanOne(st, g);
    ScanAppend([u] + [d], [st], f);
    EndLine(ve, fullday);
    ScanOne(en, g.(start := Some(vb)));
    ScanAppend([u] + [d] + [st], [en], f);
    FourLines(u, d, st, en);
  }

  lemma FourLines(a: string, b: string, c: string, d: string)
    ensures [a, b, c, d] == [a] + [b] + [c] + [d]
  {
  }

  lemma ScanOne(line: string, f: Fields)
    ensures Scan([line], f) == ScanLine(f, line)
  {
    assert [line][1..] == [];
  }

  /** Serialise, then extract: reading a created document back gives its
      start and end value texts and the stripped title, provided neither the
      title nor the rule holds a line break or a key that would claim their
      line (the UID may hold anything but a line break). */
  lemma CreateThenExtract(uid: string, now: Stamp, title: string, begin: Stamp, end: Stamp,
                          rule: Option<string>, fullday: bool)
    requires '\n' !in uid && '\n' !in title
    requires !Contains(title, "DTSTART") && !Contains(title, "DTEND")
    requires rule.Some? ==> '\n' !in rule.value && !Contains(rule.value, "DTSTART") &&
                            !Contains(rule.value, "DTEND") && !Contains(rule.value, "SUMMARY")
    ensures Extract(CreateEvent(uid, now, title, begin, end, rule, fullday)) ==
            Ok(Fields(Some(ValueText(begin, fullday)), Some(ValueText(end, fullday)), Some(Strip(title))))
  {
    var vb := ValueText(begin, fullday);
    var ve := ValueText(end, fullday);
    ValueTextChars(begin, fullday);
    ValueTextChars(end, fullday);
    var lines := EventLines(uid, now, title, begin, end, rule, fullday);
    LinesNoBreak(uid, now, title, vb, ve, rule, fullday);
    SplitTerminated(lines);
    ScanDocument(uid, now, title, vb, ve, rule, fullday);
  }

  /** The scan of a created document's lines, the value texts left abstract. */
  lemma ScanDocument(uid: string, now: Stamp, title: string, vb: string, ve: string,
                     rule: Option<string>, fullday: bool)
    requires PlainValue(vb) && PlainValue(ve) && '\n' !in title
    requires !Contains(title, "DTSTART") && !Contains(title, "DTEND")
    requires rule.Some? ==> !Contains(rule.value, "DTSTART") &&
                            !Contains(rule.value, "DTEND") && !Contains(rule.value, "SUMMARY")
    ensures Scan(Header + ["UID:" + uid, "DTSTAMP:" + FormatLocal(now), StartLineOf(vb, fullday),
                           EndLineOf(ve, fullday)] + RuleLines(rule) +
                 ["SUMMARY:" + title + Padding] + Footer + [""], NoFields) ==
            Ok(Fields(Some(vb), Some(ve), Some(Strip(title))))
  {
    var body := ["UID:" + uid, "DTSTAMP:" + FormatLocal(now), StartLineOf(vb, fullday), EndLineOf(ve, fullday)];
    var rl := RuleLines(rule);
    var sm := ["SUMMARY:" + title + Padding];
    HeaderUnkeyed();
    FooterUnkeyed();
    ScanUnkeyed(Header, NoFields);
    ScanAppend(Header, body, NoFields);
    ScanBody(uid, now, vb, ve, fullday, NoFields);
    var g := Scan(body, NoFields).value;
    ScanAppend(Header + body, rl, NoFields);
    if rule.Some? {
      RuleLine(rule.value);
    }
    ScanUnkeyed(rl, g);
    ScanAppend(Header + body + rl, sm, NoFields);
    SummaryLine(title);
    ScanOne(sm[0], g);
    var h := g.(summary := Some(Strip(title)));
    ScanAppend(Header + body + rl + sm, Footer, NoFields);
    ScanUnkeyed(Footer, h);
    ScanAppend(Header + body + rl + sm + Footer, [""], NoFields);
    ScanUnkeyed([""], h);
  }

  lemma LinesNoBreak(uid: string, now: Stamp, title: string, vb: string, ve: string,
                     rule: Option<string>, fullday: bool)
    requires '\n' !in uid && '\n' !in title && PlainValue(vb) && PlainValue(ve)
    requires rule.Some? ==> '\n' !in rule.value
    ensures NoBreaks(Header + ["UID:" + uid, "DTSTAMP:" + FormatLocal(now), StartLineOf(vb, fullday),
                               EndLineOf(ve, fullday)] + RuleLines(rule) +
                     ["SUMMARY:" + title + Padding] + Footer)
  {
    FixedLinesNoBreak();
    StampNoBreak(now);
    StartLineNoBreak(vb, fullday);
    EndLineNoBreak(ve, fullday);
    SummaryNoBreak(title);
    var body := ["UID:" + uid, "DTSTAMP:" + FormatLocal(now), StartLineOf(vb, fullday), EndLineOf(ve, fullday)];
    assert NoBreaks(body);
    assert NoBreaks(RuleLines(rule));
    NoBreaksAppend(Header, body);
    NoBreaksAppend(Header + body, RuleLines(rule));
    NoBreaksAppend(Header + body + RuleLines(rule), ["SUMMARY:" + title + Padding]);
    NoBreaksAppend(Header + body + RuleLines(rule) + ["SUMMARY:" + title + Padding], Footer);
  }

  lemma NoBreaksAppend(a: seq<string>, b: seq<string>)
    requires NoBreaks(a) && NoBreaks(b)
    ensures NoBreaks(a + b)
  {
    forall k | 0 <= k < |a + b| ensures '\n' !in (a + b)[k] {
      if k >= |a| {
        assert (a + b)[k] == b[k - |a|];
      }
    }
  }

  lemma StampNoBreak(now: Stamp)
    ensures '\n' !in "DTSTAMP:" + FormatLocal(now)
  {
    ValueTextChars(now, false);
  }
}
