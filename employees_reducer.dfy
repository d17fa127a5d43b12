/**
 * The context store's reducer over employees (keyed by id) and shift
 * assignments (keyed by date). It never changes its input: every action
 * builds a new state. The fresh shift id and the date key of an instant
 * are parameters.
 */
module EmployeesReducer {
  import opened Wrappers
  import opened Dict
  import opened Seqs
  import opened Types

  datatype EmployeesState = EmployeesState(employees: Dict<Employee>, assignments: Dict<seq<ShiftEvent>>)

  /** `Partial<Employee>`: the fields a patch sets. */
  datatype Patch = Patch(id: Option<string>, name: Option<string>, score: Option<real>, fairnessColor: Option<FairnessColor>)

  /** `Omit<ShiftEvent, 'id'>` */
  datatype ShiftDraft = ShiftDraft(
    employeeId: string, role: Role, start: Instant, end: Instant,
    tags: Option<seq<ShiftTag>>, startISO: Option<string>, endISO: Option<string>)

  datatype Action =
    | AddEmployee(payload: Employee)
    | UpdateEmployee(id: string, patch: Patch)
    | RemoveEmployee(id: string)
    | Assign(draft: ShiftDraft)
    | Unassign(id: string, dateISO: string)
    | Unknown(kind: string)

  const SeedEmployees: Dict<Employee> := [
    ("1", Employee("1", "Emil Avanesov", Some(72.0), Some(Green))),
    ("2", Employee("2", "Kyle McKinstry", Some(88.0), Some(Green))),
    ("3", Employee("3", "Mat Blackwood", Some(68.0), Some(Yellow))),
    ("4", Employee("4", "Jason Yay", Some(91.0), Some(Red)))
  ]

  const InitialState := EmployeesState(SeedEmployees, [])

  /** `{ ...e, ...patch }` */
  function Overlay(e: Employee, p: Patch): Employee {
    Employee(
      p.id.GetOr(e.id), p.name.GetOr(e.name),
      if p.score.Some? then p.score else e.score,
      if p.fairnessColor.Some? then p.fairnessColor else e.fairnessColor)
  }

  /** `{ id, ...payload }` */
  function NewShift(id: string, d: ShiftDraft): ShiftEvent {
    ShiftEvent(id, d.employeeId, d.role, d.start, d.end, d.tags, d.startISO, d.endISO)
  }

  /** `reducer(state, action)`; `freshId` is the `uuid()` drawn, `dayKey` the ISO date of an instant. */
  function Reduce(state: EmployeesState, action: Action, freshId: string, dayKey: Instant -> string): EmployeesState {
    match action
    case AddEmployee(payload) =>
      state.(employees := Put(state.employees, payload.id, payload))
    case UpdateEmployee(id, patch) =>
      (match Get(state.employees, id)
       case None => state
       case Some(e) => state.(employees := Put(state.employees, id, Overlay(e, patch))))
    case RemoveEmployee(id) =>
      state.(employees := Remove(state.employees, id))
    case Assign(draft) =>
      var shift := NewShift(freshId, draft);
      var dateKey := dayKey(shift.start);
      var existing := Get(state.assignments, dateKey).GetOr([]);
      state.(assignments := Put(state.assignments, dateKey, existing + [shift]))
    case Unassign(id, dateISO) =>
      var existing := Get(state.assignments, dateISO).GetOr([]);
      state.(assignments := Put(state.assignments, dateISO, Filter(existing, (s: ShiftEvent) => s.id != id)))
    case Unknown(_) => state
  }

  /** Both records keep one entry per key. */
  ghost predicate Valid(state: EmployeesState) {
    DistinctKeys(state.employees) && DistinctKeys(state.assignments)
  }

  // ---------------------------------------------------------------------------
  // One lemma per action

  /** ADD_EMPLOYEE sets the payload under its id and changes nothing else. */
  lemma AddSetsOne(state: EmployeesState, e: Employee, freshId: string, dayKey: Instant -> string)
    ensures var r := Reduce(state, AddEmployee(e), freshId, dayKey);
      && (forall k :: Get(r.employees, k) == if k == e.id then Some(e) else Get(state.employees, k))
      && r.assignments == state.assignments
  {
  }

  /** UPDATE_EMPLOYEE on an absent id is the identity. */
  lemma UpdateAbsent(state: EmployeesState, id: string, p: Patch, freshId: string, dayKey: Instant -> string)
    requires id !in Keys(state.employees)
    ensures Reduce(state, UpdateEmployee(id, p), freshId, dayKey) == state
  {
  }

  /**
   * UPDATE_EMPLOYEE overlays the patch on the record under the same key (a
   * patched `id` changes the record, not its key) and changes nothing else.
   */
  lemma UpdateOverlays(state: EmployeesState, id: string, p: Patch, freshId: string, dayKey: Instant -> string)
    requires id in Keys(state.employees)
    ensures var r := Reduce(state, UpdateEmployee(id, p), freshId, dayKey);
      && Keys(r.employees) == Keys(state.employees)
      && Get(r.employees, id) == Some(Overlay(Get(state.employees, id).value, p))
      && (forall k :: k != id ==> Get(r.employees, k) == Get(state.employees, k))
      && r.assignments == state.assignments
  {
  }

  /** An empty patch changes nothing, field by field. */
  lemma OverlayEmpty(e: Employee)
    ensures Overlay(e, Patch(None, None, None, None)) == e
  {
  }

  /** REMOVE_EMPLOYEE removes exactly that key; assignments are untouched. */
  lemma RemoveOne(state: EmployeesState, id: string, freshId: string, dayKey: Instant -> string)
    ensures var r := Reduce(state, RemoveEmployee(id), freshId, dayKey);
      && (forall k :: k in Keys(r.employees) <==> k in Keys(state.employees) && k != id)
      && (forall k :: Get(r.employees, k) == if k == id then None else Get(state.employees, k))
      && r.assignments == state.assignments
  {
  }

  /** ASSIGN appends the new shift, with the fresh id, to the list of its start date; nothing else changes. */
  lemma AssignAppends(state: EmployeesState, d: ShiftDraft, freshId: string, dayKey: Instant -> string)
    ensures var r := Reduce(state, Assign(d), freshId, dayKey);
      var key := dayKey(d.start);
      && Get(r.assignments, key) == Some(Get(state.assignments, key).GetOr([]) + [NewShift(freshId, d)])
      && (forall k :: k != key ==> Get(r.assignments, k) == Get(state.assignments, k))
      && r.employees == state.employees
  {
  }

  /**
   * UNASSIGN removes every shift with that id from that date's list only
   * (leaving an empty list for a date that had none); nothing else changes.
   */
  lemma UnassignRemoves(state: EmployeesState, id: string, date: string, freshId: string, dayKey: Instant -> string)
    ensures var r := Reduce(state, Unassign(id, date), freshId, dayKey);
      var before := Get(state.assignments, date).GetOr([]);
      && Get(r.assignments, date).Some?
      && (forall s :: s in Get(r.assignments, date).value <==> s in before && s.id != id)
      && |Get(r.assignments, date).value| <= |before|
      && (forall s: ShiftEvent :: multiset(Get(r.assignments, date).value)[s] == if s.id != id then multiset(before)[s] else 0)
      && IsSubsequence(Get(r.assignments, date).value, before)
      && (forall k :: k != date ==> Get(r.assignments, k) == Get(state.assignments, k))
      && r.employees == state.employees
  {
    var before := Get(state.assignments, date).GetOr([]);
    FilterMembership(before, (s: ShiftEvent) => s.id != id);
    FilterSubsequence(before, (s: ShiftEvent) => s.id != id);
    FilterLength(before, (s: ShiftEvent) => s.id != id);
  }

  /** UNASSIGN twice is UNASSIGN once. */
  lemma UnassignIdempotent(state: EmployeesState, id: string, date: string, freshId: string, dayKey: Instant -> string)
    ensures var once := Reduce(state, Unassign(id, date), freshId, dayKey);
      Reduce(once, Unassign(id, date), freshId, dayKey) == once
  {
    var p := (s: ShiftEvent) => s.id != id;
    var before := Get(state.assignments, date).GetOr([]);
    var once := Reduce(state, Unassign(id, date), freshId, dayKey);
    var f := Filter(before, p);
    assert Get(once.assignments, date) == Some(f);
    FilterMembership(before, p);
    assert forall i :: 0 <= i < |f| ==> p(f[i]) by {
      forall i | 0 <= i < |f| ensures p(f[i]) {
        assert f[i] in f;
      }
    }
    FilterAll(f, p);
    PutSame(once.assignments, date, f);
  }

  /** Writing back the value a key already holds changes nothing. */
  lemma {:induction false} PutSame<V>(d: Dict<V>, k: string, v: V)
    requires Get(d, k) == Some(v)
    ensures Put(d, k, v) == d
  {
    if d != [] && d[0].0 != k {
      PutSame(d[1..], k, v);
    }
  }

  /** Any other action returns the state as it is. */
  lemma UnknownIsIdentity(state: EmployeesState, kind: string, freshId: string, dayKey: Instant -> string)
    ensures Reduce(state, Unknown(kind), freshId, dayKey) == state
  {
  }

  /** Every action keeps both records free of duplicate keys. */
  lemma ReducePreservesValid(state: EmployeesState, action: Action, freshId: string, dayKey: Instant -> string)
    requires Valid(state)
    ensures Valid(Reduce(state, action, freshId, dayKey))
  {
    match action
    case AddEmployee(e) => PutDistinct(state.employees, e.id, e);
    case UpdateEmployee(id, p) =>
      if id in Keys(state.employees) {
        PutDistinct(state.employees, id, Overlay(Get(state.employees, id).value, p));
      }
    case RemoveEmployee(id) => RemoveDistinct(state.employees, id);
    case Assign(d) =>
      var key := dayKey(d.start);
      PutDistinct(state.assignments, key, Get(state.assignments, key).GetOr([]) + [NewShift(freshId, d)]);
    case Unassign(id, date) =>
      var before := Get(state.assignments, date).GetOr([]);
      PutDistinct(state.assignments, date, Filter(before, (s: ShiftEvent) => s.id != id));
    case Unknown(_) =>
  }

  /** The seed state is valid. */
  lemma InitialValid()
    ensures Valid(InitialState)
  {
  }
}
