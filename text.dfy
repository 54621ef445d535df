/** String operations the calendar layer relies on, stated as Python's
    `str` methods behave: substring test, `replace`, `split('\n')`,
    `split(':', 1)` and `strip()`. */
module Text {

  datatype Option<+T> = None | Some(value: T)

  /** `pat` occurs in `s` starting at index `i`. */
  predicate OccursAt(s: string, pat: string, i: int)
  {
    0 <= i && i + |pat| <= |s| && s[i..i + |pat|] == pat
  }

  /** Python's `pat in s`. */
  predicate Contains(s: string, pat: string)
  {
    exists i :: 0 <= i <= |s| && OccursAt(s, pat, i)
  }

  /** An occurrence of `a + b` is an occurrence of `a` followed by one of `b`. */
  lemma OccursSplit(s: string, a: string, b: string, i: int)
    ensures OccursAt(s, a + b, i) <==> OccursAt(s, a, i) && OccursAt(s, b, i + |a|)
  {
    if OccursAt(s, a, i) && OccursAt(s, b, i + |a|) {
      assert s[i..i + |a + b|] == s[i..i + |a|] + s[i + |a|..i + |a| + |b|];
    }
    if OccursAt(s, a + b, i) {
      assert s[i..i + |a|] == s[i..i + |a + b|][..|a|];
      assert s[i + |a|..i + |a| + |b|] == s[i..i + |a + b|][|a|..];
    }
  }

  lemma ContainsPart(s: string, a: string, b: string)
    ensures Contains(s, a + b) ==> Contains(s, a) && Contains(s, b)
  {
    if Contains(s, a + b) {
      var i :| 0 <= i <= |s| && OccursAt(s, a + b, i);
      OccursSplit(s, a, b, i);
      assert OccursAt(s, b, i + |a|);
    }
  }

  /** Python's `s.replace(pat, rep)`: every non-overlapping occurrence of
      `pat`, found scanning left to right, is replaced by `rep`. */
  function ReplaceAll(s: string, pat: string, rep: string): string
    requires |pat| > 0
    decreases |s|
  {
    if |s| < |pat| then s
    else if s[..|pat|] == pat then rep + ReplaceAll(s[|pat|..], pat, rep)
    else [s[0]] + ReplaceAll(s[1..], pat, rep)
  }

  lemma {:induction false} ReplaceAllAbsent(s: string, pat: string, rep: string)
    requires |pat| > 0 && !Contains(s, pat)
    ensures ReplaceAll(s, pat, rep) == s
    decreases |s|
  {
    if |s| >= |pat| {
      assert !OccursAt(s, pat, 0);
      assert !Contains(s[1..], pat) by {
        forall i | OccursAt(s[1..], pat, i) ensures false {
          assert s[1..][i..i + |pat|] == s[i + 1..i + 1 + |pat|];
          assert OccursAt(s, pat, i + 1);
        }
      }
      ReplaceAllAbsent(s[1..], pat, rep);
    }
  }

  /** When the first occurrence of `pat` in `p + pat + q` is the one right
      after `p`, replacing scans `p` unchanged and replaces that one. */
  lemma {:induction false} ReplaceAllAt(p: string, pat: string, rep: string, q: string)
    requires |pat| > 0
    requires forall i :: 0 <= i < |p| ==> !OccursAt(p + pat + q, pat, i)
    ensures ReplaceAll(p + pat + q, pat, rep) == p + rep + ReplaceAll(q, pat, rep)
    decreases |p|
  {
    var s := p + pat + q;
    if |p| == 0 {
      assert s == pat + q;
      assert s[..|pat|] == pat;
      assert s[|pat|..] == q;
    } else {
      var t := p[1..] + pat + q;
      assert s[1..] == t;
      assert !OccursAt(s, pat, 0);
      assert s[..|pat|] != pat;
      assert ReplaceAll(s, pat, rep) == [s[0]] + ReplaceAll(t, pat, rep);
      forall i | 0 <= i < |p| - 1 ensures !OccursAt(t, pat, i) {
        assert !OccursAt(s, pat, i + 1);
        assert i + |pat| <= |t|;
        assert t[i..i + |pat|] == s[1..][i..i + |pat|] == s[i + 1..i + 1 + |pat|];
      }
      ReplaceAllAt(p[1..], pat, rep, q);
      assert s[0] == p[0] && [p[0]] + p[1..] == p;
    }
  }

  /** Replacing by a string of the same length keeps the length. */
  lemma {:induction false} ReplaceAllLength(s: string, pat: string, rep: string)
    requires |pat| > 0 && |rep| == |pat|
    ensures |ReplaceAll(s, pat, rep)| == |s|
    decreases |s|
  {
    if |s| >= |pat| {
      if s[..|pat|] == pat {
        ReplaceAllLength(s[|pat|..], pat, rep);
      } else {
        ReplaceAllLength(s[1..], pat, rep);
      }
    }
  }

  /** Python's `s.split('\n')`: the pieces between newlines, in order;
      there is always at least one piece. */
  function SplitLines(s: string): (lines: seq<string>)
    ensures |lines| >= 1
    ensures forall k :: 0 <= k < |lines| ==> '\n' !in lines[k]
    ensures JoinLines(lines) == s
    decreases |s|
  {
    if |s| == 0 then [""]
    else if s[0] == '\n' then
      var rest := SplitLines(s[1..]);
      assert s == "\n" + s[1..];
      [""] + rest
    else
      var rest := SplitLines(s[1..]);
      assert s == [s[0]] + s[1..];
      assert JoinLines(rest) == rest[0] + (if |rest| == 1 then "" else "\n" + JoinLines(rest[1..]));
      [[s[0]] + rest[0]] + rest[1..]
  }

  /** The inverse of `SplitLines`: Python's `'\n'.join(lines)`. */
  function JoinLines(lines: seq<string>): string
    requires |lines| >= 1
  {
    if |lines| == 1 then lines[0] else lines[0] + "\n" + JoinLines(lines[1..])
  }

  /** Splitting a newline-free line gives that line alone. */
  lemma {:induction false} SplitLinesNoNewline(s: string)
    requires '\n' !in s
    ensures SplitLines(s) == [s]
    decreases |s|
  {
    if |s| > 0 {
      assert '\n' !in s[1..] by {
        forall k | 0 <= k < |s[1..]| ensures s[1..][k] != '\n' { assert s[1..][k] == s[k + 1]; }
      }
      SplitLinesNoNewline(s[1..]);
    }
  }

  /** A newline splits: the pieces of `a + "\n" + b` are those of `a` followed by those of `b`. */
  lemma {:induction false} SplitLinesAppend(a: string, b: string)
    ensures SplitLines(a + "\n" + b) == SplitLines(a) + SplitLines(b)
    decreases |a|
  {
    var s := a + "\n" + b;
    if |a| == 0 {
      assert s == "\n" + b;
      assert s[1..] == b;
    } else {
      assert s[0] == a[0];
      assert s[1..] == a[1..] + "\n" + b;
      SplitLinesAppend(a[1..], b);
      if a[0] == '\n' {
        assert a[1..] == a[1..];
      }
    }
  }

  /** Joining newline-free lines and splitting again gives the lines back. */
  lemma {:induction false} SplitJoin(lines: seq<string>)
    requires |lines| >= 1
    requires forall k :: 0 <= k < |lines| ==> '\n' !in lines[k]
    ensures SplitLines(JoinLines(lines)) == lines
    decreases |lines|
  {
    SplitLinesNoNewline(lines[0]);
    if |lines| > 1 {
      SplitJoin(lines[1..]);
      SplitLinesAppend(lines[0], JoinLines(lines[1..]));
      assert [lines[0]] + lines[1..] == lines;
    }
  }

  /** Python's `s.split(c, 1)[1]`: the text after the first `c`, or `None`
      where Python raises `IndexError` because `c` does not occur. */
  function AfterFirst(s: string, c: char): (r: Option<string>)
    ensures r.None? <==> c !in s
    ensures r.Some? ==> exists i :: 0 <= i < |s| && s[i] == c && c !in s[..i] && r.value == s[i + 1..]
    decreases |s|
  {
    if |s| == 0 then None
    else if s[0] == c then
      assert s[..0] == [];
      Some(s[1..])
    else
      var r := AfterFirst(s[1..], c);
      assert s == [s[0]] + s[1..];
      if r.Some? then
        var i :| 0 <= i < |s[1..]| && s[1..][i] == c && c !in s[1..][..i] && r.value == s[1..][i + 1..];
        assert s[..i + 1] == [s[0]] + s[1..][..i];
        assert s[i + 1 + 1..] == s[1..][i + 1..];
        r
      else r
  }

  lemma {:induction false} AfterFirstAt(p: string, c: char, q: string)
    requires c !in p
    ensures AfterFirst(p + [c] + q, c) == Some(q)
    decreases |p|
  {
    var s := p + [c] + q;
    if |p| == 0 {
      assert s[1..] == q;
    } else {
      assert s[1..] == p[1..] + [c] + q;
      AfterFirstAt(p[1..], c, q);
    }
  }

  /** The characters Python's `str.isspace` accepts in the ASCII and
      Latin-1 range. */
  predicate IsSpace(c: char)
  {
    c == ' ' || c == '\t' || c == '\n' || c == '\r' || c == '\U{0B}' || c == '\U{0C}' ||
    ('\U{1C}' <= c <= '\U{1F}') || c == '\U{85}' || c == '\U{A0}'
  }

  predicate AllSpace(s: string)
  {
    forall k :: 0 <= k < |s| ==> IsSpace(s[k])
  }

  function StripLeft(s: string): string
    decreases |s|
  {
    if |s| > 0 && IsSpace(s[0]) then StripLeft(s[1..]) else s
  }

  function StripRight(s: string): string
    decreases |s|
  {
    if |s| > 0 && IsSpace(s[|s| - 1]) then StripRight(s[..|s| - 1]) else s
  }

  /** Python's `s.strip()`. */
  function Strip(s: string): (r: string)
  {
    StripRight(StripLeft(s))
  }

  /** What `strip` keeps is a slice of its input with only whitespace cut
      away on either side, and it starts and ends with a non-space. */
  lemma {:induction false} StripIsTrimmedSlice(s: string)
    ensures exists i, j ::
      0 <= i <= j <= |s| && Strip(s) == s[i..j] && AllSpace(s[..i]) && AllSpace(s[j..])
    ensures |Strip(s)| > 0 ==> !IsSpace(Strip(s)[0]) && !IsSpace(Strip(s)[|Strip(s)| - 1])
  {
    var i := StripLeftSlice(s);
    var j := StripRightSlice(s[i..]);
    assert s[i..][..j] == s[i..i + j];
    assert s[i..][j..] == s[i + j..];
  }

  lemma {:induction false} StripLeftSlice(s: string) returns (i: nat)
    ensures i <= |s| && StripLeft(s) == s[i..] && AllSpace(s[..i])
    ensures |StripLeft(s)| > 0 ==> !IsSpace(StripLeft(s)[0])
    decreases |s|
  {
    if |s| > 0 && IsSpace(s[0]) {
      var k := StripLeftSlice(s[1..]);
      i := k + 1;
      assert s[1..][k..] == s[i..];
      assert forall m :: 0 <= m < i ==> s[..i][m] == (if m == 0 then s[0] else s[1..][..k][m - 1]);
    } else {
      i := 0;
    }
  }

  lemma {:induction false} StripRightSlice(s: string) returns (j: nat)
    ensures j <= |s| && StripRight(s) == s[..j] && AllSpace(s[j..])
    ensures |StripRight(s)| > 0 ==> !IsSpace(StripRight(s)[|StripRight(s)| - 1])
    decreases |s|
  {
    if |s| > 0 && IsSpace(s[|s| - 1]) {
      j := StripRightSlice(s[..|s| - 1]);
      assert s[..|s| - 1][..j] == s[..j];
      assert forall m :: j <= m < |s| ==> s[m] == (if m == |s| - 1 then s[|s| - 1] else s[..|s| - 1][j..][m - j]);
    } else {
      j := |s|;
    }
  }

  lemma {:induction false} StripRightAppendSpace(s: string, sp: string)
    requires AllSpace(sp)
    ensures StripRight(s + sp) == StripRight(s)
    decreases |sp|
  {
    if |sp| > 0 {
      var t := s + sp;
      assert t[..|t| - 1] == s + sp[..|sp| - 1];
      StripRightAppendSpace(s, sp[..|sp| - 1]);
    } else {
      assert s + sp == s;
    }
  }

  lemma {:induction false} StripLeftAppend(s: string, t: string)
    ensures AllSpace(s) ==> StripLeft(s + t) == StripLeft(t)
    ensures !AllSpace(s) ==> StripLeft(s + t) == StripLeft(s) + t
    decreases |s|
  {
    if |s| == 0 {
      assert s + t == t;
    } else {
      assert (s + t)[1..] == s[1..] + t;
      StripLeftAppend(s[1..], t);
      if IsSpace(s[0]) {
        assert AllSpace(s) <==> AllSpace(s[1..]) by {
          if AllSpace(s[1..]) {
            forall k | 0 <= k < |s| ensures IsSpace(s[k]) {
              if k > 0 { assert s[k] == s[1..][k - 1]; }
            }
          }
        }
      }
    }
  }

  /** Trailing whitespace appended to a value does not survive `strip`. */
  lemma StripAppendSpace(s: string, sp: string)
    requires AllSpace(sp)
    ensures Strip(s + sp) == Strip(s)
  {
    StripLeftAppend(s, sp);
    if AllSpace(s) {
      StripLeftAppend(s, []);
      assert s + [] == s;
      assert StripLeft(sp) == StripLeft(sp + []) == StripLeft([]) by {
        StripLeftAppend(sp, []);
        assert sp + [] == sp;
      }
    } else {
      StripRightAppendSpace(StripLeft(s), sp);
    }
  }

  /** A value that neither starts nor ends with whitespace is left as is. */
  lemma StripUntouched(s: string)
    requires |s| > 0 ==> !IsSpace(s[0]) && !IsSpace(s[|s| - 1])
    ensures Strip(s) == s
  {
  }
}
