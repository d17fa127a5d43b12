/**
 * The app's shared time and score helpers: `toMinutes`, which reads the same
 * clock pattern as the backend after inserting a space before the meridiem,
 * `scoreToTone`, and `roleToDisplayName`.
 */
module TimeUtils {
  import opened Wrappers
  import opened Text
  import opened ClockPattern
  import CleanupModel
  import CleanupLemmas

  /** The pattern `(\d)([ap]m)` (case-insensitive) matches at `i`. */
  predicate MeridiemAt(s: string, i: nat) {
    && i + 2 < |s|
    && IsDigit(s[i])
    && (LowerChar(s[i + 1]) == 'a' || LowerChar(s[i + 1]) == 'p')
    && LowerChar(s[i + 2]) == 'm'
  }

  /** The leftmost match of `(\d)([ap]m)` at or after `from`. */
  function FindMeridiem(s: string, from: nat): (r: Option<nat>)
    decreases |s| - from
    ensures r.Some? ==> from <= r.value && MeridiemAt(s, r.value)
    ensures r.Some? ==> forall j :: from <= j < r.value ==> !MeridiemAt(s, j)
    ensures r.None? ==> forall j :: from <= j ==> !MeridiemAt(s, j)
  {
    if from + 2 >= |s| then None
    else if MeridiemAt(s, from) then Some(from)
    else FindMeridiem(s, from + 1)
  }

  /** `replace(/(\d)([ap]m)/i, '$1 $2')`: a space after the first such digit. */
  function Normalize(s: string): string {
    match FindMeridiem(s, 0)
    case None => s
    case Some(i) => s[..i + 1] + " " + s[i + 1..]
  }

  /**
   * `toMinutes`: minutes since midnight of a 12-hour clock reading, 0 when
   * the trimmed, normalised text does not match the pattern. The
   * case-insensitive match is taken on the lower-cased text.
   */
  function ToMinutes(timeStr: string): nat {
    match MatchClock(Lower(Normalize(Trim(timeStr))))
    case None => 0
    case Some(m) => Minutes(m)
  }

  /** Normalising never changes whether or how the clock pattern matches, since `\s*` may be empty. */
  lemma NormalizeKeepsMatch(s: string)
    ensures MatchClock(Lower(Normalize(s))) == MatchClock(Lower(s))
  {
    var r := FindMeridiem(s, 0);
    if r.Some? {
      var i := r.value;
      var l := Lower(s);
      assert Lower(s[..i + 1] + " " + s[i + 1..]) == l[..i + 1] + " " + l[i + 1..];
      assert IsDigit(l[i]) && (l[i + 1] == 'a' || l[i + 1] == 'p') && l[i + 2] == 'm';
      InsertSpaceKeepsMatch(l, i);
    }
  }

  /** The app's `toMinutes` and the backend's `time_to_minutes` agree on every text. */
  lemma ToMinutesAgrees(t: string)
    ensures ToMinutes(t) == CleanupModel.TimeToMinutes(t)
  {
    NormalizeKeepsMatch(Trim(t));
    if t == "" {
      assert Trim(t) == "";
      assert !ShapeAt(Lower(""), 1) && !ShapeAt(Lower(""), 2);
    }
  }

  /** "9:00am" and "9:00 am" read the same: any white space, or none, before the meridiem. */
  lemma ToMinutesOfClock(hs: string, ms: string, ws: string, p: Meridiem)
    requires 1 <= |hs| <= 2 && AllDigits(hs)
    requires |ms| == 2 && AllDigits(ms)
    requires AllSpace(ws)
    ensures ToMinutes(hs + ":" + ms + ws + PeriodText(p))
         == Minutes(ClockMatch(DigitsValue(hs), DigitsValue(ms), p))
    ensures ToMinutes(hs + ":" + ms + ws + PeriodText(p)) == ToMinutes(hs + ":" + ms + PeriodText(p))
  {
    ToMinutesAgrees(hs + ":" + ms + ws + PeriodText(p));
    CleanupLemmas.TimeToMinutesOfClock(hs, ms, ws, p);
    ToMinutesAgrees(hs + ":" + ms + "" + PeriodText(p));
    CleanupLemmas.TimeToMinutesOfClock(hs, ms, "", p);
    assert hs + ":" + ms + "" + PeriodText(p) == hs + ":" + ms + PeriodText(p);
  }

  // ---------------------------------------------------------------------------
  // scoreToTone

  datatype Tone = Good | Warn | Alert

  /** How good a tone is: `alert` < `warn` < `good`. */
  function Rank(t: Tone): nat {
    match t
    case Alert => 0
    case Warn => 1
    case Good => 2
  }

  /** `scoreToTone`: a missing score counts as 0. */
  function ScoreToTone(score: Option<real>): (r: Tone)
    ensures r == Good <==> score.GetOr(0.0) >= 70.0
    ensures r == Warn <==> 50.0 <= score.GetOr(0.0) < 70.0
    ensures r == Alert <==> score.GetOr(0.0) < 50.0
  {
    var value := score.GetOr(0.0);
    if value >= 70.0 then Good
    else if value >= 50.0 then Warn
    else Alert
  }

  /** A higher score never gives a worse tone. */
  lemma ScoreToToneMonotone(a: real, b: real)
    requires a <= b
    ensures Rank(ScoreToTone(Some(a))) <= Rank(ScoreToTone(Some(b)))
  {
  }

  // ---------------------------------------------------------------------------
  // roleToDisplayName

  const ApiCodes: seq<string> := ["BARISTA", "SANDWICH", "WAITER", "MANAGER", "MIXED", "COFFEE"]

  const DisplayNames: seq<string> := ["Barista", "Sandwich", "Waiter", "Manager", "Mixed", "Coffee"]

  /** `roleMap[role]`: the table holds every API code and every display name. */
  function RoleMap(role: string): Option<string> {
    if role == "BARISTA" || role == "Barista" then Some("Barista")
    else if role == "SANDWICH" || role == "Sandwich" then Some("Sandwich")
    else if role == "WAITER" || role == "Waiter" then Some("Waiter")
    else if role == "MANAGER" || role == "Manager" then Some("Manager")
    else if role == "MIXED" || role == "Mixed" then Some("Mixed")
    else if role == "COFFEE" || role == "Coffee" then Some("Coffee")
    else None
  }

  /** `roleMap[role] || role` */
  function RoleToDisplayName(role: string): string {
    match RoleMap(role)
    case Some(name) => if name != "" then name else role
    case None => role
  }

  /** Each API code maps to its display name, and each display name to itself. */
  lemma DisplayNameOfCode(i: nat)
    requires i < |DisplayNames|
    ensures RoleToDisplayName(ApiCodes[i]) == DisplayNames[i]
    ensures RoleToDisplayName(DisplayNames[i]) == DisplayNames[i]
  {
    if i == 0 {
    } else if i == 1 {
    } else if i == 2 {
    } else if i == 3 {
    } else if i == 4 {
    }
  }

  /** The API codes are the display names upper-cased. */
  lemma ApiCodesAreUpper(i: nat)
    requires i < |DisplayNames|
    ensures ApiCodes[i] == Upper(DisplayNames[i])
  {
  }

  /** Any other text comes back unchanged. */
  lemma DisplayNameUnknown(role: string)
    requires role !in DisplayNames && role !in ApiCodes
    ensures RoleToDisplayName(role) == role
  {
    assert RoleMap(role) == None by {
      assert forall i :: 0 <= i < 6 ==> role != DisplayNames[i] && role != ApiCodes[i];
    }
  }

  /** Mapping a role twice is mapping it once: every result is a fixed point. */
  lemma DisplayNameIdempotent(role: string)
    ensures RoleToDisplayName(RoleToDisplayName(role)) == RoleToDisplayName(role)
  {
    match RoleMap(role)
    case None =>
    case Some(name) =>
      var i := if name == "Barista" then 0 else if name == "Sandwich" then 1 else if name == "Waiter" then 2
               else if name == "Manager" then 3 else if name == "Mixed" then 4 else 5;
      assert name == DisplayNames[i];
      DisplayNameOfCode(i);
  }
}
