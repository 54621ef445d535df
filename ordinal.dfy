/** The ordinal-suffix correction applied to spoken dates such as
    "07th of May" (`check_ordinal`). */
module Ordinal {
  import opened Text
  import opened DateTimes

  /** `check_ordinal`: the first of four rewrite rules whose trigger occurs
      in `s` is applied, and no other. */
  function CheckOrdinal(s: string): string
  {
    if Contains(s, "01th") then ReplaceAll(s, "01th", "1st")
    else if Contains(s, "1th") then ReplaceAll(s, "1th", "1st")
    else if Contains(s, "2th") then ReplaceAll(s, "th", "nd")
    else if Contains(s, "3th") then ReplaceAll(s, "th", "rd")
    else s
  }

  /** The day-of-month text `check_ordinal` produces from "%dth": the
      zero-padded day with a suffix chosen by its last digit alone, except
      that day 1 also loses its leading zero. */
  function OrdinalAsWritten(d: int): string
    requires 1 <= d <= 31
  {
    if d == 1 then "1st"
    else Pad(d, 2) + (if d % 10 == 1 then "st" else if d % 10 == 2 then "nd" else if d % 10 == 3 then "rd" else "th")
  }

  /** The "%dth of %B" text with the day digits `p`. */
  function DayPhrase(p: string, m: int): string
    requires 1 <= m <= 12
  {
    p + "th of " + MonthName(m)
  }

  /** What follows the "th" in a day phrase. */
  function Tail(m: int): string
    requires 1 <= m <= 12
  {
    " of " + MonthName(m)
  }

  /** A string that holds none of the four triggers passes unchanged. */
  lemma OrdinalNoTrigger(s: string)
    requires !Contains(s, "1th") && !Contains(s, "2th") && !Contains(s, "3th")
    ensures CheckOrdinal(s) == s
  {
    assert "0" + "1th" == "01th";
    ContainsPart(s, "0", "1th");
  }

  /** The 2 and 3 rules rewrite every "th", so none is left, and the
      length does not change. */
  lemma OrdinalRewritesEveryTh(s: string)
    requires !Contains(s, "1th") && (Contains(s, "2th") || Contains(s, "3th"))
    ensures |CheckOrdinal(s)| == |s|
    ensures !Contains(CheckOrdinal(s), "th")
  {
    assert "0" + "1th" == "01th";
    ContainsPart(s, "0", "1th");
    var rep := if Contains(s, "2th") then "nd" else "rd";
    ReplaceAllLength(s, "th", rep);
    ReplaceLeavesNoTh(s, rep);
  }

  /** Replacing "th" by a two-letter text that starts with neither 't' nor
      'h' and does not end in 't' leaves no "th" behind. */
  lemma {:induction false} ReplaceLeavesNoTh(s: string, rep: string)
    requires |rep| == 2 && rep[0] != 't' && rep[0] != 'h' && rep[1] != 't'
    ensures !Contains(ReplaceAll(s, "th", rep), "th")
    ensures |s| > 0 && s[0] != 'h' ==> |ReplaceAll(s, "th", rep)| > 0 && ReplaceAll(s, "th", rep)[0] != 'h'
    decreases |s|
  {
    var r := ReplaceAll(s, "th", rep);
    if |s| < 2 {
      assert r == s;
    } else if s[..2] == "th" {
      var rest := ReplaceAll(s[2..], "th", rep);
      ReplaceLeavesNoTh(s[2..], rep);
      assert r == rep + rest;
      forall i | 0 <= i <= |r| ensures !OccursAt(r, "th", i) {
        if i >= 2 && i + 2 <= |r| {
          assert r[i..i + 2] == rest[i - 2..i];
          assert !OccursAt(rest, "th", i - 2);
        } else if i + 2 <= |r| {
          assert r[i..i + 2][0] == r[i] == rep[i];
        }
      }
    } else {
      var rest := ReplaceAll(s[1..], "th", rep);
      ReplaceLeavesNoTh(s[1..], rep);
      assert r == [s[0]] + rest;
      forall i | 0 <= i <= |r| ensures !OccursAt(r, "th", i) {
        if i >= 1 && i + 2 <= |r| {
          assert r[i..i + 2] == rest[i - 1..i + 1];
          assert !OccursAt(rest, "th", i - 1);
        } else if i == 0 && 2 <= |r| {
          assert r[..2][0] == s[0] && r[..2][1] == r[1] == rest[0];
          if s[0] == 't' {
            assert s[1] != 'h';
          }
        }
      }
    }
  }

  /** No "th" after the day: " of <Month>" holds none. */
  lemma TailHasNoTh(m: int)
    requires 1 <= m <= 12
    ensures !Contains(Tail(m), "th")
  {
    var t := Tail(m);
    forall i | 0 <= i <= |t| ensures !OccursAt(t, "th", i) {
      if i + 2 <= |t| {
        assert t[i..i + 2] == [t[i], t[i + 1]];
        TailLetters(m, i);
      }
    }
  }

  lemma TailLetters(m: int, i: int)
    requires 1 <= m <= 12 && 0 <= i < |Tail(m)| - 1
    ensures !(Tail(m)[i] == 't' && Tail(m)[i + 1] == 'h')
  {
    var n := MonthName(m);
    assert Tail(m)[i + 1] == (if i + 1 < 4 then " of "[i + 1] else n[i - 3]);
    if m == 3 {
      assert n == "March";
    }
  }

  /** The day phrase holds "th" once only, right after the two day digits. */
  lemma ThOnlyAfterDay(p: string, m: int, i: int)
    requires |p| == 2 && AllDigits(p) && 1 <= m <= 12
    ensures OccursAt(DayPhrase(p, m), "th", i) <==> i == 2
  {
    var s := DayPhrase(p, m);
    var t := Tail(m);
    assert s == p + "th" + t;
    if 0 <= i < 2 {
      assert s[i] == p[i];
      assert s[i..i + 2][0] == s[i];
    } else if i == 2 {
      assert s[2..4] == "th";
    } else if i == 3 {
      assert s[3..5][0] == 'h';
    } else if i > 3 && i + 2 <= |s| {
      assert s[i..i + 2] == t[i - 4..i - 2];
      TailHasNoTh(m);
      assert !OccursAt(t, "th", i - 4);
    }
  }

  /** A trigger "<x>th" is found in the day phrase exactly when the day
      digits end with <x>. */
  lemma TriggerInPhrase(p: string, m: int, x: string)
    requires |p| == 2 && AllDigits(p) && 1 <= m <= 12 && 1 <= |x| <= 2
    ensures Contains(DayPhrase(p, m), x + "th") <==> p[2 - |x|..] == x
  {
    var s := DayPhrase(p, m);
    assert s == p + "th" + Tail(m);
    if Contains(s, x + "th") {
      var i :| 0 <= i <= |s| && OccursAt(s, x + "th", i);
      OccursSplit(s, x, "th", i);
      ThOnlyAfterDay(p, m, i + |x|);
      assert s[i..2] == p[i..];
    }
    if p[2 - |x|..] == x {
      assert s[2 - |x|..4] == p[2 - |x|..] + "th";
      assert OccursAt(s, x + "th", 2 - |x|);
    }
  }

  lemma NoTriggerInTail(m: int, x: string)
    requires 1 <= m <= 12
    ensures !Contains(Tail(m), x + "th")
  {
    TailHasNoTh(m);
    ContainsPart(Tail(m), x, "th");
  }

  /** Day digits "01": the first rule turns them into "1st". */
  lemma OrdinalFirstRule(m: int)
    requires 1 <= m <= 12
    ensures CheckOrdinal(DayPhrase("01", m)) == "1st" + Tail(m)
  {
    var t := Tail(m);
    var s := DayPhrase("01", m);
    assert "01" + "th" == "01th";
    assert AllDigits("01");
    TriggerInPhrase("01", m, "01");
    assert s == [] + "01th" + t;
    ReplaceAllAt([], "01th", "1st", t);
    NoTriggerInTail(m, "01");
    ReplaceAllAbsent(t, "01th", "1st");
  }

  /** Day digits ending in 1 other than "01": the second rule. */
  lemma OrdinalSecondRule(p: string, m: int)
    requires |p| == 2 && AllDigits(p) && p[1] == '1' && p[0] != '0' && 1 <= m <= 12
    ensures CheckOrdinal(DayPhrase(p, m)) == p + "st" + Tail(m)
  {
    var t := Tail(m);
    var s := DayPhrase(p, m);
    assert "01" + "th" == "01th" && "1" + "th" == "1th";
    TriggerInPhrase(p, m, "01");
    TriggerInPhrase(p, m, "1");
    assert s == [p[0]] + "1th" + t;
    assert s[0..3][1] == p[1];
    ReplaceAllAt([p[0]], "1th", "1st", t);
    NoTriggerInTail(m, "1");
    ReplaceAllAbsent(t, "1th", "1st");
    assert [p[0]] + "1st" == p + "st";
  }

  /** Day digits ending in 2 or 3: the third or fourth rule rewrites the
      one "th" of the phrase. */
  lemma OrdinalThirdFourthRule(p: string, m: int)
    requires |p| == 2 && AllDigits(p) && (p[1] == '2' || p[1] == '3') && 1 <= m <= 12
    ensures CheckOrdinal(DayPhrase(p, m)) == p + (if p[1] == '2' then "nd" else "rd") + Tail(m)
  {
    var t := Tail(m);
    var s := DayPhrase(p, m);
    assert "01" + "th" == "01th" && "1" + "th" == "1th" && "2" + "th" == "2th" && "3" + "th" == "3th";
    TriggerInPhrase(p, m, "01");
    TriggerInPhrase(p, m, "1");
    TriggerInPhrase(p, m, "2");
    TriggerInPhrase(p, m, "3");
    var rep := if p[1] == '2' then "nd" else "rd";
    assert s == p + "th" + t;
    ThOnlyAfterDay(p, m, 0);
    ThOnlyAfterDay(p, m, 1);
    ReplaceAllAt(p, "th", rep, t);
    TailHasNoTh(m);
    ReplaceAllAbsent(t, "th", rep);
  }

  /** Any other day digits: no rule applies. */
  lemma OrdinalNoRule(p: string, m: int)
    requires |p| == 2 && AllDigits(p) && p[1] != '1' && p[1] != '2' && p[1] != '3' && 1 <= m <= 12
    ensures CheckOrdinal(DayPhrase(p, m)) == DayPhrase(p, m)
  {
    assert "01" + "th" == "01th" && "1" + "th" == "1th" && "2" + "th" == "2th" && "3" + "th" == "3th";
    TriggerInPhrase(p, m, "01");
    TriggerInPhrase(p, m, "1");
    TriggerInPhrase(p, m, "2");
    TriggerInPhrase(p, m, "3");
  }

  /** What `check_ordinal` makes of the "%dth of %B" text for each day of
      the month: "1st", "11st", "21st", "31st", "02nd", "12nd", "22nd",
      "03rd", "13rd", "23rd", and "<dd>th" for every other day. */
  lemma OrdinalDayPhrase(d: int, m: int)
    requires 1 <= d <= 31 && 1 <= m <= 12
    ensures CheckOrdinal(DayPhrase(Pad(d, 2), m)) == OrdinalAsWritten(d) + Tail(m)
  {
    var p := Pad(d, 2);
    assert p == Pad(d / 10, 1) + [('0' as int + d % 10) as char];
    assert Pad(d / 10, 1) == [('0' as int + (d / 10) % 10) as char];
    assert p[1] == ('0' as int + d % 10) as char;
    assert p[0] == ('0' as int + d / 10) as char;
    if d == 1 {
      assert p == "01";
      OrdinalFirstRule(m);
    } else if d % 10 == 1 {
      OrdinalSecondRule(p, m);
    } else if d % 10 == 2 || d % 10 == 3 {
      OrdinalThirdFourthRule(p, m);
    } else {
      OrdinalNoRule(p, m);
    }
  }

  /** The outcomes `check_ordinal` gives for days 1, 2, 4, 11, 12 and 13
      of any month. */
  lemma OrdinalExamples(m: int)
    requires 1 <= m <= 12
    ensures CheckOrdinal(DayPhrase("01", m)) == "1st" + Tail(m)
    ensures CheckOrdinal(DayPhrase("02", m)) == "02nd" + Tail(m)
    ensures CheckOrdinal(DayPhrase("04", m)) == "04th" + Tail(m)
    ensures CheckOrdinal(DayPhrase("11", m)) == "11st" + Tail(m)
    ensures CheckOrdinal(DayPhrase("12", m)) == "12nd" + Tail(m)
    ensures CheckOrdinal(DayPhrase("13", m)) == "13rd" + Tail(m)
  {
    OrdinalFirstRule(m);
    assert AllDigits("02") && AllDigits("04") && AllDigits("11") && AllDigits("12") && AllDigits("13");
    OrdinalThirdFourthRule("02", m);
    assert "02" + "nd" == "02nd";
    OrdinalNoRule("04", m);
    assert DayPhrase("04", m) == "04th" + Tail(m);
    OrdinalSecondRule("11", m);
    assert "11" + "st" == "11st";
    OrdinalThirdFourthRule("12", m);
    assert "12" + "nd" == "12nd";
    OrdinalThirdFourthRule("13", m);
    assert "13" + "rd" == "13rd";
  }
}
