/**
 * The day view model: `to12Hour` and `buildDaySlots`, which drops each of a
 * day's assignments into the time slots its start and end options span.
 */
module ScheduleView {
  import opened Wrappers
  import opened Text
  import opened ClockPattern
  import opened TimeUtils

  // ---------------------------------------------------------------------------
  // to12Hour

  /** The first position of `c` in `s`. */
  function IndexOf(s: string, c: char): (r: Option<nat>)
    ensures r.Some? ==> r.value < |s| && s[r.value] == c && forall j :: 0 <= j < r.value ==> s[j] != c
    ensures r.None? ==> c !in s
  {
    if s == [] then None
    else if s[0] == c then Some(0)
    else match IndexOf(s[1..], c)
      case None => None
      case Some(i) => Some(i + 1)
  }

  /** The first two fields of `s.split(':')`; the second is absent when there is no ':'. */
  function SplitClock(s: string): (string, Option<string>) {
    match IndexOf(s, ':')
    case None => (s, None)
    case Some(i) =>
      var rest := s[i + 1..];
      (s[..i], Some(match IndexOf(rest, ':') case None => rest case Some(j) => rest[..j]))
  }

  /** `minutesStr || '00'` */
  function MinutesField(f: Option<string>): string {
    if f.None? || f.value == "" then "00" else f.value
  }

  /** The hour adjustment and the output template, for an hour `parseInt` read (`None`: NaN). */
  function Format12(hours: Option<int>, minutes: string): string {
    match hours
    case None => "NaN:" + minutes + " am"
    case Some(h) =>
      var period := if h >= 12 then "pm" else "am";
      var h12 := if h == 0 then 12 else if h > 12 then h - 12 else h;
      IntToString(h12) + ":" + minutes + " " + period
  }

  /**
   * `to12Hour`: "HH:MM" on a 24-hour clock to "H:MM am/pm". The minutes are
   * copied as they are (`'00'` when missing or empty); an hour that
   * `parseInt` cannot read prints as "NaN" with `am`.
   */
  function To12Hour(time24: string): string {
    var fields := SplitClock(time24);
    Format12(ParseInt(fields.0), MinutesField(fields.1))
  }

  lemma SplitDigits(hs: string, ms: string)
    requires AllDigits(hs) && ':' !in ms
    ensures SplitClock(hs + ":" + ms) == (hs, Some(ms))
    ensures SplitClock(hs) == (hs, None)
  {
    var s := hs + ":" + ms;
    forall j | 0 <= j < |hs| ensures s[j] != ':' && hs[j] != ':' {
      assert s[j] == hs[j] && IsDigit(hs[j]);
    }
    assert s[|hs|] == ':';
    assert IndexOf(s, ':') == Some(|hs|);
    assert s[..|hs|] == hs && s[|hs| + 1..] == ms;
  }

  /** An "HH:MM" text reads as its hour and its minutes. */
  lemma To12HourOfDigits(hs: string, mm: string)
    requires hs != [] && AllDigits(hs) && ':' !in mm
    ensures To12Hour(hs + ":" + mm) == Format12(Some(DigitsValue(hs)), MinutesField(Some(mm)))
    ensures To12Hour(hs) == Format12(Some(DigitsValue(hs)), "00")
  {
    SplitDigits(hs, mm);
    ParseIntDigits(hs);
  }

  /**
   * The hour table: 0 is 12 am, 1 to 11 stay am, 12 is 12 pm, and any later
   * hour loses 12 and is pm. The minutes are kept verbatim, "00" when empty.
   */
  lemma To12HourTable(hs: string, mm: string)
    requires hs != [] && AllDigits(hs) && ':' !in mm
    ensures var h := DigitsValue(hs);
      var m := if mm == "" then "00" else mm;
      var r := To12Hour(hs + ":" + mm);
      && (h == 0 ==> r == "12:" + m + " am")
      && (1 <= h < 12 ==> r == NatToString(h) + ":" + m + " am")
      && (h == 12 ==> r == "12:" + m + " pm")
      && (h > 12 ==> r == NatToString(h - 12) + ":" + m + " pm")
  {
    To12HourOfDigits(hs, mm);
    Format12Table(DigitsValue(hs), MinutesField(Some(mm)));
  }

  lemma Format12Table(h: nat, m: string)
    ensures h == 0 ==> Format12(Some(h), m) == "12:" + m + " am"
    ensures 1 <= h < 12 ==> Format12(Some(h), m) == NatToString(h) + ":" + m + " am"
    ensures h == 12 ==> Format12(Some(h), m) == "12:" + m + " pm"
    ensures h > 12 ==> Format12(Some(h), m) == NatToString(h - 12) + ":" + m + " pm"
  {
    if h == 0 || h == 12 {
      TwelveText();
    }
  }

  /** Twelve prints as "12". */
  lemma TwelveText()
    ensures IntToString(12) == "12"
  {
    assert NatToString(1) == "1";
  }

  /** Without a minutes field the minutes are "00". */
  lemma To12HourNoMinutes(hs: string)
    requires hs != [] && AllDigits(hs)
    ensures To12Hour(hs) == To12Hour(hs + ":00")
  {
    assert ':' !in "00";
    assert hs + ":00" == hs + ":" + "00";
    To12HourOfDigits(hs, "00");
    assert MinutesField(Some("00")) == "00";
  }

  /** Reading back: `toMinutes(to12Hour("HH:MM"))` is HH·60 + MM for every hour of the day. */
  lemma To12HourRoundTrip(hs: string, mm: string)
    requires hs != [] && AllDigits(hs) && DigitsValue(hs) <= 23
    requires |mm| == 2 && AllDigits(mm)
    ensures ToMinutes(To12Hour(hs + ":" + mm)) == DigitsValue(hs) * 60 + DigitsValue(mm)
  {
    assert ':' !in mm by { assert IsDigit(mm[0]) && IsDigit(mm[1]); }
    To12HourOfDigits(hs, mm);
    var h := DigitsValue(hs);
    Hour12Back(h);
    Format12Clock(h, mm);
    var d := NatToString(Hour12(h));
    assert 1 <= |d| <= 2 && AllDigits(d);
    ToMinutesOfClock(d, mm, " ", PeriodOf(h));
    MinutesOfClock(ClockMatch(Hour12(h), DigitsValue(mm), PeriodOf(h)));
  }

  /** The 12-hour reading and the meridiem give the hour of the day back. */
  lemma Hour12Back(h: nat)
    requires h <= 23
    ensures 1 <= Hour12(h) <= 12
    ensures Hour12(h) % 12 + (if PeriodOf(h) == Pm then 12 else 0) == h
  {
  }

  /** The hour on the 12-hour clock and the meridiem of an hour of the day. */
  function Hour12(h: nat): nat { if h == 0 then 12 else if h > 12 then h - 12 else h }
  function PeriodOf(h: nat): Meridiem { if h >= 12 then Pm else Am }

  lemma Format12Clock(h: nat, mm: string)
    requires mm != ""
    ensures Format12(Some(h), MinutesField(Some(mm))) == NatToString(Hour12(h)) + ":" + mm + " " + PeriodText(PeriodOf(h))
  {
  }

  // ---------------------------------------------------------------------------
  // buildDaySlots

  datatype Shift = Shift(shiftId: int, date: string, start: string, end: string)

  datatype Assignment = Assignment(
    shiftId: int, employeeId: int, role: Option<string>,
    isManual: bool, startTime: Option<string>, endTime: Option<string>)

  datatype EmployeeLite = EmployeeLite(employeeId: int, firstName: string, lastName: string)

  datatype StaffEntry = StaffEntry(name: string, role: string, tone: Tone)

  datatype Slot = Slot(id: string, startTime: string, endTime: string, assignedStaff: seq<StaffEntry>)

  /** Where an assignment goes: option indices [si, ei) and the entry it adds. */
  datatype Placed = Placed(si: nat, ei: nat, entry: StaffEntry)

  /** JavaScript truthiness of an optional string. */
  predicate Truthy(s: Option<string>) { s.Some? && s.value != "" }

  /** `timeIdx.get(t) ?? -1`: a `Map` built from the options keeps the last index of each. */
  function TimeIndex(options: seq<string>, t: string): (r: int)
    ensures -1 <= r < |options|
    ensures r >= 0 ==> options[r] == t && forall j :: r < j < |options| ==> options[j] != t
    ensures r < 0 ==> t !in options
  {
    if options == [] then -1
    else if options[|options| - 1] == t then |options| - 1
    else TimeIndex(options[..|options| - 1], t)
  }

  /** `shiftById.get(id)`: last shift with that id. */
  function ShiftById(shifts: seq<Shift>, id: int): (r: Option<Shift>)
    ensures r.Some? ==> r.value in shifts && r.value.shiftId == id
    ensures r.None? ==> forall i :: 0 <= i < |shifts| ==> shifts[i].shiftId != id
  {
    if shifts == [] then None
    else if shifts[|shifts| - 1].shiftId == id then Some(shifts[|shifts| - 1])
    else ShiftById(shifts[..|shifts| - 1], id)
  }

  /** `empById.get(id)`: the trimmed full name of the last employee with that id. */
  function NameById(employees: seq<EmployeeLite>, id: int): Option<string> {
    if employees == [] then None
    else
      var e := employees[|employees| - 1];
      if e.employeeId == id then Some(Trim(e.firstName + " " + e.lastName))
      else NameById(employees[..|employees| - 1], id)
  }

  /** `employees.find(...)`: the first employee with that id. */
  function FindEmployee(employees: seq<EmployeeLite>, id: int): (r: Option<EmployeeLite>)
    ensures r.Some? ==> r.value in employees && r.value.employeeId == id
    ensures r.None? ==> forall i :: 0 <= i < |employees| ==> employees[i].employeeId != id
  {
    if employees == [] then None
    else if employees[0].employeeId == id then Some(employees[0])
    else FindEmployee(employees[1..], id)
  }

  /** The start and end labels: a manual assignment's own times, else its shift's in 12-hour form. */
  function Times(a: Assignment, sh: Shift): (string, string) {
    if a.isManual && Truthy(a.startTime) && Truthy(a.endTime) then (a.startTime.value, a.endTime.value)
    else (To12Hour(sh.start), To12Hour(sh.end))
  }

  /** The entry an assignment adds: name (or "#id"), role (or "MANAGER"), and the tone of its fitness. */
  function Entry(a: Assignment, employees: seq<EmployeeLite>, fitness: EmployeeLite -> real): StaffEntry {
    var name := match NameById(employees, a.employeeId)
      case Some(n) => n
      case None => "#" + IntToString(a.employeeId);
    var score := match FindEmployee(employees, a.employeeId)
      case Some(e) => fitness(e)
      case None => 0.0;
    StaffEntry(name, if Truthy(a.role) then a.role.value else "MANAGER", ScoreToTone(Some(score)))
  }

  /**
   * What `buildDaySlots` reads besides the assignments: the day, the
   * bundle's shifts and employees, the time options, and the fitness of an
   * employee for the day's demand.
   */
  datatype Day = Day(
    dateISO: string, shifts: seq<Shift>, employees: seq<EmployeeLite>,
    options: seq<string>, fitness: EmployeeLite -> real)

  /** Where one assignment lands, or `None` when the loop skips it. */
  function Placement(day: Day, a: Assignment): Option<Placed> {
    match ShiftById(day.shifts, a.shiftId)
    case None => None
    case Some(sh) =>
      if sh.date != day.dateISO then None
      else
        var (st, en) := Times(a, sh);
        var si := TimeIndex(day.options, st);
        var ei := TimeIndex(day.options, en);
        if si < 0 || ei < 0 then None
        else Some(Placed(si, ei, Entry(a, day.employees, day.fitness)))
  }

  /** Whether a placement covers the option index `x`: `si <= x < ei`. */
  predicate Covers(p: Option<Placed>, x: int) {
    p.Some? && p.value.si <= x < p.value.ei
  }

  /** The entries a slot whose start has option index `x` receives from `assignments`, in order. */
  function StaffFor(day: Day, assignments: seq<Assignment>, x: int): seq<StaffEntry> {
    if assignments == [] then []
    else
      var p := Placement(day, assignments[|assignments| - 1]);
      StaffFor(day, assignments[..|assignments| - 1], x) + (if Covers(p, x) then [p.value.entry] else [])
  }

  /** A generated slot with the staff that `assignments` give it. */
  function Filled(day: Day, assignments: seq<Assignment>, slot: Slot): Slot {
    slot.(assignedStaff := StaffFor(day, assignments, TimeIndex(day.options, slot.startTime)))
  }

  /** The day's slots: the generated ones, each with the staff it receives and nothing else changed. */
  function DaySlots(day: Day, assignments: seq<Assignment>, generated: seq<Slot>): (r: seq<Slot>)
    ensures |r| == |generated|
    ensures forall i :: 0 <= i < |r| ==>
      r[i].id == generated[i].id && r[i].startTime == generated[i].startTime && r[i].endTime == generated[i].endTime
  {
    seq(|generated|, i requires 0 <= i < |generated| => Filled(day, assignments, generated[i]))
  }

  /** One more assignment adds its entry to the slots it covers and changes nothing else. */
  lemma FilledStep(day: Day, assignments: seq<Assignment>, a: Assignment, slot: Slot)
    ensures var p := Placement(day, a);
      var before := Filled(day, assignments, slot);
      Filled(day, assignments + [a], slot)
        == before.(assignedStaff := before.assignedStaff
             + if Covers(p, TimeIndex(day.options, slot.startTime)) then [p.value.entry] else [])
  {
    assert (assignments + [a])[..|assignments|] == assignments;
  }

  /** The inner loop: append `entry` to every slot whose start index lies in [si, ei). */
  method AddToSlots(arr: array<Slot>, options: seq<string>, si: int, ei: int, entry: StaffEntry)
    modifies arr
    ensures forall k :: 0 <= k < arr.Length ==>
      arr[k] == old(arr[k]).(assignedStaff := old(arr[k]).assignedStaff
        + if si <= TimeIndex(options, old(arr[k]).startTime) < ei then [entry] else [])
  {
    for i := 0 to arr.Length
      invariant forall k :: 0 <= k < i ==>
        arr[k] == old(arr[k]).(assignedStaff := old(arr[k]).assignedStaff
          + if si <= TimeIndex(options, old(arr[k]).startTime) < ei then [entry] else [])
      invariant forall k :: i <= k < arr.Length ==> arr[k] == old(arr[k])
    {
      var slotStartIdx := TimeIndex(options, arr[i].startTime);
      if slotStartIdx >= si && slotStartIdx < ei {
        arr[i] := arr[i].(assignedStaff := arr[i].assignedStaff + [entry]);
      }
    }
  }

  /**
   * `buildDaySlots`. The time options and the generated slots of the day are
   * inputs (their generator is not part of this model), as is the fitness of
   * an employee for the day's demand.
   */
  method BuildDaySlots(day: Day, assignments: seq<Assignment>, generated: seq<Slot>) returns (slots: seq<Slot>)
    ensures slots == DaySlots(day, assignments, generated)
  {
    var arr := new Slot[|generated|](i requires 0 <= i < |generated| => generated[i].(assignedStaff := []));
    for j := 0 to |assignments|
      invariant forall i :: 0 <= i < arr.Length ==> arr[i] == Filled(day, assignments[..j], generated[i])
    {
      var a := assignments[j];
      assert assignments[..j + 1] == assignments[..j] + [a];
      forall k | 0 <= k < arr.Length
        ensures var p := Placement(day, a);
          var before := Filled(day, assignments[..j], generated[k]);
          Filled(day, assignments[..j + 1], generated[k])
            == before.(assignedStaff := before.assignedStaff
                 + if Covers(p, TimeIndex(day.options, generated[k].startTime)) then [p.value.entry] else [])
      {
        FilledStep(day, assignments[..j], a, generated[k]);
      }
      var sh := ShiftById(day.shifts, a.shiftId);
      if sh.Some? && sh.value.date == day.dateISO {
        var (startTime12, endTime12) := Times(a, sh.value);
        var si := TimeIndex(day.options, startTime12);
        var ei := TimeIndex(day.options, endTime12);
        if si >= 0 && ei >= 0 {
          var entry := Entry(a, day.employees, day.fitness);
          assert Placement(day, a) == Some(Placed(si, ei, entry));
          AddToSlots(arr, day.options, si, ei, entry);
        } else {
          assert Placement(day, a) == None;
        }
      } else {
        assert Placement(day, a) == None;
      }
    }
    assert assignments[..|assignments|] == assignments;
    slots := arr[..];
  }

  // ---------------------------------------------------------------------------
  // What the slots receive

  /** An assignment whose shift is unknown or on another day is ignored. */
  lemma OtherDayIgnored(day: Day, assignments: seq<Assignment>, a: Assignment, generated: seq<Slot>)
    requires ShiftById(day.shifts, a.shiftId).None? || ShiftById(day.shifts, a.shiftId).value.date != day.dateISO
    ensures DaySlots(day, assignments + [a], generated) == DaySlots(day, assignments, generated)
  {
    forall k | 0 <= k < |generated| ensures Filled(day, assignments + [a], generated[k]) == Filled(day, assignments, generated[k]) {
      FilledStep(day, assignments, a, generated[k]);
    }
  }

  /** An assignment whose start or end label is not a time option is skipped. */
  lemma UnlistedTimeSkipped(day: Day, assignments: seq<Assignment>, a: Assignment, generated: seq<Slot>)
    requires ShiftById(day.shifts, a.shiftId).Some?
    requires var t := Times(a, ShiftById(day.shifts, a.shiftId).value); t.0 !in day.options || t.1 !in day.options
    ensures DaySlots(day, assignments + [a], generated) == DaySlots(day, assignments, generated)
  {
    forall k | 0 <= k < |generated| ensures Filled(day, assignments + [a], generated[k]) == Filled(day, assignments, generated[k]) {
      FilledStep(day, assignments, a, generated[k]);
    }
  }

  /**
   * A placed assignment is appended to exactly the slots whose start option
   * index `x` has `si <= x < ei`; when `ei <= si` no slot receives it.
   */
  lemma PlacedInRange(day: Day, assignments: seq<Assignment>, a: Assignment, generated: seq<Slot>, i: nat)
    requires i < |generated|
    requires Placement(day, a).Some?
    ensures var p := Placement(day, a).value;
      var x := TimeIndex(day.options, generated[i].startTime);
      DaySlots(day, assignments + [a], generated)[i].assignedStaff
        == DaySlots(day, assignments, generated)[i].assignedStaff + (if p.si <= x < p.ei then [p.entry] else [])
    ensures Placement(day, a).value.ei <= Placement(day, a).value.si ==>
      DaySlots(day, assignments + [a], generated)[i] == DaySlots(day, assignments, generated)[i]
  {
    FilledStep(day, assignments, a, generated[i]);
  }

  /**
   * A manual assignment with both times uses them; every other assignment
   * uses its shift's times in 12-hour form.
   */
  lemma TimesChoice(a: Assignment, sh: Shift)
    ensures a.isManual && Truthy(a.startTime) && Truthy(a.endTime) ==> Times(a, sh) == (a.startTime.value, a.endTime.value)
    ensures !(a.isManual && Truthy(a.startTime) && Truthy(a.endTime)) ==> Times(a, sh) == (To12Hour(sh.start), To12Hour(sh.end))
  {
  }

  /**
   * An automatic assignment on a shift starting at "HH:MM" starts, in
   * minutes, where its shift does.
   */
  lemma AutoStartReadsBack(a: Assignment, sh: Shift, hs: string, mm: string)
    requires !a.isManual
    requires hs != [] && AllDigits(hs) && DigitsValue(hs) <= 23
    requires |mm| == 2 && AllDigits(mm)
    requires sh.start == hs + ":" + mm
    ensures ToMinutes(Times(a, sh).0) == DigitsValue(hs) * 60 + DigitsValue(mm)
  {
    To12HourRoundTrip(hs, mm);
  }

  /**
   * The entry's fallbacks: "#<employeeId>" without a known name, "MANAGER"
   * without a role, and the `alert` tone (fitness 0) for an unknown employee.
   */
  lemma EntryDefaults(a: Assignment, employees: seq<EmployeeLite>, fitness: EmployeeLite -> real)
    ensures NameById(employees, a.employeeId).None? ==> Entry(a, employees, fitness).name == "#" + IntToString(a.employeeId)
    ensures !Truthy(a.role) ==> Entry(a, employees, fitness).role == "MANAGER"
    ensures FindEmployee(employees, a.employeeId).None? ==> Entry(a, employees, fitness).tone == Alert
  {
  }

  /** Every entry a slot holds comes from an assignment placed over the slot's start. */
  lemma {:induction false} StaffFromCoveringAssignments(day: Day, assignments: seq<Assignment>, x: int)
    ensures forall e :: e in StaffFor(day, assignments, x) ==>
      exists j :: (0 <= j < |assignments| && Covers(Placement(day, assignments[j]), x)
        && Placement(day, assignments[j]).value.entry == e)
  {
    if assignments != [] {
      var init := assignments[..|assignments| - 1];
      StaffFromCoveringAssignments(day, init, x);
      forall e | e in StaffFor(day, assignments, x)
        ensures exists j :: (0 <= j < |assignments| && Covers(Placement(day, assignments[j]), x)
          && Placement(day, assignments[j]).value.entry == e)
      {
        if e in StaffFor(day, init, x) {
          var j :| 0 <= j < |init| && Covers(Placement(day, init[j]), x) && Placement(day, init[j]).value.entry == e;
          assert assignments[j] == init[j];
        } else {
          var j := |assignments| - 1;
          assert Covers(Placement(day, assignments[j]), x) && Placement(day, assignments[j]).value.entry == e;
        }
      }
    }
  }
}
