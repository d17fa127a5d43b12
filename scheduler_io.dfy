/**
 * The export to the scheduler's input format: the staff list, every
 * shift as a scheduler assignment, and the role coverage each day's demand
 * asks for.
 */
module SchedulerIO {
  import opened Wrappers
  import opened Dict
  import opened Seqs
  import opened Types
  import opened EmployeesReducer
  import opened RoleMappers

  datatype EmployeeRef = EmployeeRef(id: string, name: string)

  datatype Schedule = Schedule(employees: seq<EmployeeRef>, assignments: seq<SchedulerAssignment>)

  /** `serializeSchedule`: `toISO` is `Date.prototype.toISOString`. */
  function SerializeSchedule(state: EmployeesState, toISO: Instant -> string): (r: Schedule)
    ensures |r.employees| == |state.employees|
    ensures forall i :: 0 <= i < |r.employees| ==>
      r.employees[i] == EmployeeRef(state.employees[i].1.id, state.employees[i].1.name)
    ensures |r.assignments| == SumLengths(Values(state.assignments))
  {
    var list := Values(state.employees);
    var shifts := Flatten(Values(state.assignments));
    FlattenLength(Values(state.assignments));
    Schedule(
      seq(|list|, i requires 0 <= i < |list| => EmployeeRef(list[i].id, list[i].name)),
      seq(|shifts|, i requires 0 <= i < |shifts| => ToSchedulerAssignment(shifts[i], toISO)))
  }

  /** `Record<SchedulerRole, number>` */
  datatype Coverage = Coverage(manager: nat, barista: nat, waiter: nat, sandwich: nat)

  function Needed(c: Coverage, role: SchedulerRole): nat {
    match role
    case MANAGER => c.manager
    case BARISTA => c.barista
    case WAITER => c.waiter
    case SANDWICH => c.sandwich
  }

  /** The coverage the loop body builds for one day. */
  function CoverageFor(demand: Demand): Coverage {
    match demand
    case CoffeeDemand => Coverage(1, 2, 0, 0)
    case SandwichDemand => Coverage(1, 0, 0, 2)
    case MixedDemand => Coverage(1, 1, 1, 1)
  }

  /** The output after the loop has visited the entries of `indicators` in order. */
  function CoverageTable(indicators: Dict<Demand>): Dict<Coverage> {
    if indicators == [] then []
    else
      var last := indicators[|indicators| - 1];
      Put(CoverageTable(indicators[..|indicators| - 1]), last.0, CoverageFor(last.1))
  }

  /** `roleCoverageFromIndicators` */
  method RoleCoverageFromIndicators(indicators: Dict<Demand>) returns (out: Dict<Coverage>)
    ensures out == CoverageTable(indicators)
  {
    out := [];
    var i := 0;
    while i < |indicators|
      invariant 0 <= i <= |indicators|
      invariant out == CoverageTable(indicators[..i])
    {
      var (dateISO, demand) := indicators[i];
      var coverage := Coverage(1, 0, 0, 0);
      if demand == CoffeeDemand {
        coverage := coverage.(barista := 2);
      } else if demand == SandwichDemand {
        coverage := coverage.(sandwich := 2);
      } else {
        coverage := coverage.(barista := 1, sandwich := 1, waiter := 1);
      }
      assert indicators[..i + 1][..i] == indicators[..i];
      out := Put(out, dateISO, coverage);
      i := i + 1;
    }
    assert indicators[..i] == indicators;
  }

  // ---------------------------------------------------------------------------
  // Lemmas

  /**
   * Every day gets one manager; a role other than the manager is asked for
   * exactly when `demandToSchedulerRoles` lists it; and the day's total is
   * three people, or four on a mixed day.
   */
  lemma CoverageMatchesDemandRoles(demand: Demand, role: SchedulerRole)
    ensures Needed(CoverageFor(demand), MANAGER) == 1
    ensures role != MANAGER ==> (Needed(CoverageFor(demand), role) > 0 <==> role in DemandToSchedulerRoles(demand))
    ensures var c := CoverageFor(demand);
      c.manager + c.barista + c.waiter + c.sandwich == if demand == MixedDemand then 4 else 3
  {
    DemandRolesCover(demand, role);
  }

  /** On an object (no repeated date) the output has the same dates in the same order, each with its demand's coverage. */
  lemma {:induction false} CoverageTablePerDate(indicators: Dict<Demand>, dateISO: string)
    requires DistinctKeys(indicators)
    ensures Keys(CoverageTable(indicators)) == Keys(indicators)
    ensures Get(CoverageTable(indicators), dateISO) ==
      if Get(indicators, dateISO).Some? then Some(CoverageFor(Get(indicators, dateISO).value)) else None
  {
    if indicators != [] {
      var init, last := indicators[..|indicators| - 1], indicators[|indicators| - 1];
      assert indicators == init + [last];
      assert DistinctKeys(init);
      CoverageTablePerDate(init, dateISO);
      assert Keys(indicators) == Keys(init) + [last.0];
      GetAppend(init, last.0, last.1, dateISO);
    }
  }

  /** Every stored shift is exported, translated, at the position it has after flattening the days in order. */
  lemma SerializedShifts(state: EmployeesState, toISO: Instant -> string, i: nat)
    requires i < |Flatten(Values(state.assignments))|
    ensures SerializeSchedule(state, toISO).assignments[i] == ToSchedulerAssignment(Flatten(Values(state.assignments))[i], toISO)
  {
    FlattenLength(Values(state.assignments));
  }

  /** Assigning a shift makes the export one assignment longer; the staff list is unchanged. */
  lemma SerializeAfterAssign(state: EmployeesState, d: ShiftDraft, freshId: string, dayKey: Instant -> string, toISO: Instant -> string)
    ensures var after := SerializeSchedule(Reduce(state, Assign(d), freshId, dayKey), toISO);
      && |after.assignments| == |SerializeSchedule(state, toISO).assignments| + 1
      && after.employees == SerializeSchedule(state, toISO).employees
  {
    var r := Reduce(state, Assign(d), freshId, dayKey);
    var shift := NewShift(freshId, d);
    var key := dayKey(shift.start);
    var existing := Get(state.assignments, key).GetOr([]);
    assert r == state.(assignments := Put(state.assignments, key, existing + [shift]));
    PutSumLengths(state.assignments, key, existing + [shift]);
    SerializeSameEmployees(r, state, toISO);
  }

  /** The serialized employees depend on the employee record only. */
  lemma SerializeSameEmployees(a: EmployeesState, b: EmployeesState, toISO: Instant -> string)
    requires a.employees == b.employees
    ensures SerializeSchedule(a, toISO).employees == SerializeSchedule(b, toISO).employees
  {
  }

  /** Assigning a key changes the total length by the difference between the new and old lists. */
  lemma {:induction false} PutSumLengths<T>(d: Dict<seq<T>>, k: string, v: seq<T>)
    ensures SumLengths(Values(Put(d, k, v))) + |Get(d, k).GetOr([])| == SumLengths(Values(d)) + |v|
  {
    if d != [] {
      assert Values(d)[1..] == Values(d[1..]);
      if d[0].0 != k {
        PutSumLengths(d[1..], k, v);
        assert Values(Put(d, k, v))[1..] == Values(Put(d[1..], k, v));
      } else {
        assert Values(Put(d, k, v))[1..] == Values(d[1..]);
      }
    }
  }
}
