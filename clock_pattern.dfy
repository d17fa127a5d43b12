/**
 * The clock-time pattern `^(\d{1,2}):(\d{2})\s*(am|pm)$` that both the
 * backend's `time_to_minutes` and the app's `toMinutes` match, applied to
 * lower-case text, and the conversion of its groups to minutes since midnight.
 */
module ClockPattern {
  import opened Wrappers
  import opened Text

  datatype Meridiem = Am | Pm

  /** The three groups of a successful match: hour digits, minute digits, meridiem. */
  datatype ClockMatch = ClockMatch(hour: nat, minute: nat, period: Meridiem)

  function PeriodText(p: Meridiem): string {
    match p
    case Am => "am"
    case Pm => "pm"
  }

  /** `s` matches the pattern with an hour group of `k` digits. */
  predicate ShapeAt(s: string, k: nat) {
    && (k == 1 || k == 2)
    && |s| >= k + 5
    && AllDigits(s[..k])
    && s[k] == ':'
    && AllDigits(s[k + 1..k + 3])
    && AllSpace(s[k + 3..|s| - 2])
    && (s[|s| - 2..] == "am" || s[|s| - 2..] == "pm")
  }

  function GroupsAt(s: string, k: nat): ClockMatch
    requires ShapeAt(s, k)
  {
    ClockMatch(DigitsValue(s[..k]), DigitsValue(s[k + 1..k + 3]), if s[|s| - 2] == 'p' then Pm else Am)
  }

  /** The match of the pattern against the whole of `s` (`None`: no match). */
  function MatchClock(s: string): Option<ClockMatch> {
    if ShapeAt(s, 1) then Some(GroupsAt(s, 1))
    else if ShapeAt(s, 2) then Some(GroupsAt(s, 2))
    else None
  }

  /**
   * Minutes since midnight of a match: `pm` adds 12 hours unless the hour is
   * 12, and 12 `am` is hour 0. The hour is not range-checked.
   */
  function Minutes(m: ClockMatch): nat {
    var h := if m.period == Pm && m.hour != 12 then m.hour + 12
             else if m.period == Am && m.hour == 12 then 0
             else m.hour;
    h * 60 + m.minute
  }

  /**
   * On a 12-hour clock reading (hour 1 to 12) the result is the usual one:
   * the hour modulo 12, plus 12 in the afternoon. Any other hour is taken
   * as it is, `pm` adding 12: "13:00 pm" is 25 hours.
   */
  lemma MinutesOfClock(m: ClockMatch)
    ensures 1 <= m.hour <= 12 ==>
      Minutes(m) == (m.hour % 12 + (if m.period == Pm then 12 else 0)) * 60 + m.minute
    ensures m.hour != 12 ==> Minutes(m) == (m.hour + (if m.period == Pm then 12 else 0)) * 60 + m.minute
  {
    if m.hour == 12 {
      assert m.hour % 12 == 0;
    } else if m.hour < 12 {
      assert m.hour % 12 == m.hour;
    }
  }

  /** Text of the form H:MM, white space, meridiem matches, with those groups. */
  lemma MatchClockOfShape(hs: string, ms: string, ws: string, p: Meridiem)
    requires 1 <= |hs| <= 2 && AllDigits(hs)
    requires |ms| == 2 && AllDigits(ms)
    requires AllSpace(ws)
    ensures MatchClock(hs + ":" + ms + ws + PeriodText(p))
         == Some(ClockMatch(DigitsValue(hs), DigitsValue(ms), p))
  {
    var s := hs + ":" + ms + ws + PeriodText(p);
    var k := |hs|;
    ClockSlices(hs, ms, ws, p);
    assert ShapeAt(s, k);
    assert s[|s| - 2] == s[|s| - 2..][0] == PeriodText(p)[0];
    assert GroupsAt(s, k) == ClockMatch(DigitsValue(hs), DigitsValue(ms), p);
    if k == 2 {
      assert s[1] == hs[1] && IsDigit(hs[1]);
      assert !ShapeAt(s, 1);
    }
  }

  /** The pieces of a clock text are read back by slicing it. */
  lemma ClockSlices(hs: string, ms: string, ws: string, p: Meridiem)
    requires |ms| == 2
    ensures var s := hs + ":" + ms + ws + PeriodText(p);
      && |s| == |hs| + |ws| + 5
      && s[..|hs|] == hs && s[|hs|] == ':'
      && s[|hs| + 1..|hs| + 3] == ms
      && s[|hs| + 3..|s| - 2] == ws
      && s[|s| - 2..] == PeriodText(p)
  {
    var a := hs + ":";
    var b := a + ms;
    var c := b + ws;
    var s := c + PeriodText(p);
    ConcatSlices(c, PeriodText(p));
    ConcatSlices(b, ws);
    ConcatSlices(a, ms);
    SliceOfPrefix(s, |c|, |b|, |c|);
    SliceOfPrefix(s, |c|, |hs| + 1, |b|);
    SliceOfPrefix(c, |b|, |hs| + 1, |b|);
    PrefixOfConcat(c, PeriodText(p), |hs|);
    PrefixOfConcat(b, ws, |hs|);
    PrefixOfConcat(a, ms, |hs|);
    PrefixOfConcat(hs, ":", |hs|);
  }

  /** Inserting a space between the last minute digit and the meridiem keeps a match. */
  lemma ShapeInsertSpace(s: string, i: nat, k: nat)
    requires i + 2 < |s| && IsDigit(s[i]) && (s[i + 1] == 'a' || s[i + 1] == 'p') && s[i + 2] == 'm'
    requires ShapeAt(s, k)
    ensures ShapeAt(s[..i + 1] + " " + s[i + 1..], k)
    ensures GroupsAt(s[..i + 1] + " " + s[i + 1..], k) == GroupsAt(s, k)
  {
    var n := s[..i + 1] + " " + s[i + 1..];
    forall j | k + 3 <= j < |s| - 2 ensures IsSpace(s[j]) {
      assert s[j] == s[k + 3..|s| - 2][j - (k + 3)];
    }
    assert i == k + 2 && |s| == k + 5;
    InsertedSpace(s, k + 3);
    SliceOfPrefix(n, k + 3, 0, k);
    SliceOfPrefix(s, k + 3, 0, k);
    SliceOfPrefix(n, k + 3, k + 1, k + 3);
    SliceOfPrefix(s, k + 3, k + 1, k + 3);
    assert n[k + 3..|n| - 2] == [n[k + 3]] == " ";
    assert n[|n| - 2..] == n[k + 4..] == s[k + 3..] == s[|s| - 2..];
  }

  /** A space inserted at `i`: the text before it and the text after it are kept. */
  lemma InsertedSpace(s: string, i: nat)
    requires i <= |s|
    ensures var n := s[..i] + " " + s[i..];
      |n| == |s| + 1 && n[..i] == s[..i] && n[i] == ' ' && n[i + 1..] == s[i..]
  {
  }

  /** Conversely, removing that inserted space keeps a match. */
  lemma ShapeRemoveSpace(s: string, i: nat, k: nat)
    requires i + 2 < |s| && IsDigit(s[i]) && (s[i + 1] == 'a' || s[i + 1] == 'p') && s[i + 2] == 'm'
    requires ShapeAt(s[..i + 1] + " " + s[i + 1..], k)
    ensures ShapeAt(s, k)
  {
    var n := s[..i + 1] + " " + s[i + 1..];
    InsertedSpace(s, i + 1);
    assert n[i] == s[i] && n[i + 1] == ' ' && n[i + 2] == s[i + 1];
    SpacePosition(n, i, k);
    InsertedSpace(s, k + 3);
    SliceOfPrefix(n, k + 3, 0, k);
    SliceOfPrefix(s, k + 3, 0, k);
    SliceOfPrefix(n, k + 3, k + 1, k + 3);
    SliceOfPrefix(s, k + 3, k + 1, k + 3);
    assert s[|s| - 2..] == n[|n| - 2..];
  }

  /** In a match, a digit, a space and a meridiem letter in a row sit right after the minutes. */
  lemma SpacePosition(n: string, i: nat, k: nat)
    requires ShapeAt(n, k)
    requires i + 2 < |n| && IsDigit(n[i]) && n[i + 1] == ' ' && (n[i + 2] == 'a' || n[i + 2] == 'p')
    ensures i == k + 2 && |n| == k + 6
  {
    forall j | 0 <= j < k ensures IsDigit(n[j]) {
      assert n[j] == n[..k][j];
    }
    forall j | k + 1 <= j < k + 3 ensures IsDigit(n[j]) {
      assert n[j] == n[k + 1..k + 3][j - (k + 1)];
    }
    forall j | k + 3 <= j < |n| - 2 ensures IsSpace(n[j]) {
      assert n[j] == n[k + 3..|n| - 2][j - (k + 3)];
    }
    assert n[|n| - 2] == n[|n| - 2..][0] && n[|n| - 1] == n[|n| - 2..][1];
  }

  /**
   * `MatchClock` gives the same answer whether or not a space separates the
   * minutes from the meridiem: the rewrite `(\d)([ap]m)` to `$1 $2` is harmless.
   */
  lemma InsertSpaceKeepsMatch(s: string, i: nat)
    requires i + 2 < |s| && IsDigit(s[i]) && (s[i + 1] == 'a' || s[i + 1] == 'p') && s[i + 2] == 'm'
    ensures MatchClock(s[..i + 1] + " " + s[i + 1..]) == MatchClock(s)
  {
    var n := s[..i + 1] + " " + s[i + 1..];
    if ShapeAt(s, 1) {
      ShapeInsertSpace(s, i, 1);
    } else if ShapeAt(n, 1) {
      ShapeRemoveSpace(s, i, 1);
    } else if ShapeAt(s, 2) {
      ShapeInsertSpace(s, i, 2);
    } else if ShapeAt(n, 2) {
      ShapeRemoveSpace(s, i, 2);
    }
  }
}
