/**
 * The module-level employee list: a single mutable list with get, set
 * (by value or by function of the current list), upsert by id, remove by
 * id and reset to the four initial employees.
 */
module EmployeeStore {
  import opened Wrappers
  import opened Seqs
  import opened Types

  /** The four initial employees (scores on a 0–1 scale). */
  const Initial: seq<Employee> := [
    Employee("1", "Emil Avanesov", Some(0.72), Some(Green)),
    Employee("2", "Kyle McKinstry", Some(0.88), Some(Green)),
    Employee("3", "Mat Blackwood", Some(0.68), Some(Yellow)),
    Employee("4", "Jason Yay", Some(0.91), Some(Red))
  ]

  /** `findIndex(p => p.id === id)`, `None` for -1. */
  function FindIndex(list: seq<Employee>, id: string): (r: Option<nat>)
    ensures r.Some? ==> r.value < |list| && list[r.value].id == id
    ensures r.Some? ==> forall j :: 0 <= j < r.value ==> list[j].id != id
    ensures r.None? ==> forall j :: 0 <= j < |list| ==> list[j].id != id
  {
    if list == [] then None
    else if list[0].id == id then Some(0)
    else match FindIndex(list[1..], id)
      case None => None
      case Some(i) => Some(i + 1)
  }

  /** The list after `upsertEmployee(one)`: the first element with its id replaced, or `one` appended. */
  function Upserted(list: seq<Employee>, one: Employee): seq<Employee> {
    match FindIndex(list, one.id)
    case None => list + [one]
    case Some(i) => list[i := one]
  }

  /** The list after `removeEmployee(id)`. */
  function Removed(list: seq<Employee>, id: string): seq<Employee> {
    Filter(list, (e: Employee) => e.id != id)
  }

  predicate DistinctIds(list: seq<Employee>) {
    forall i, j :: 0 <= i < j < |list| ==> list[i].id != list[j].id
  }

  class Store {
    /** `_employees` */
    var employees: seq<Employee>

    /** The store starts as a copy of the initial list. */
    constructor()
      ensures employees == Initial
    {
      employees := Initial;
    }

    /** `getEmployees` */
    method GetEmployees() returns (r: seq<Employee>)
      ensures r == employees
    {
      r := employees;
    }

    /** `setEmployees(next)` with a list */
    method SetEmployees(next: seq<Employee>)
      modifies this
      ensures employees == next
    {
      employees := next;
    }

    /** `setEmployees(f)` with a function of the current list */
    method SetEmployeesWith(f: seq<Employee> -> seq<Employee>)
      modifies this
      ensures employees == f(old(employees))
    {
      employees := f(employees);
    }

    /** `upsertEmployee` */
    method UpsertEmployee(one: Employee)
      modifies this
      ensures employees == Upserted(old(employees), one)
    {
      var prev := employees;
      var i := FindIndex(prev, one.id);
      if i.None? {
        employees := prev + [one];
      } else {
        var copy := prev;
        copy := copy[i.value := one];
        employees := copy;
      }
    }

    /** `removeEmployee` */
    method RemoveEmployee(id: string)
      modifies this
      ensures employees == Removed(old(employees), id)
    {
      employees := Filter(employees, (e: Employee) => e.id != id);
    }

    /** `resetEmployees` */
    method ResetEmployees()
      modifies this
      ensures employees == Initial
    {
      employees := Initial;
    }
  }

  // ---------------------------------------------------------------------------
  // Lemmas

  /** An id already present: its first element is replaced in place; length and the rest are kept. */
  lemma UpsertPresent(list: seq<Employee>, one: Employee, i: nat)
    requires i < |list| && list[i].id == one.id
    requires forall j :: 0 <= j < i ==> list[j].id != one.id
    ensures |Upserted(list, one)| == |list|
    ensures Upserted(list, one)[i] == one
    ensures forall j :: 0 <= j < |list| && j != i ==> Upserted(list, one)[j] == list[j]
  {
    assert FindIndex(list, one.id) == Some(i);
  }

  /** A new id is appended at the end. */
  lemma UpsertAbsent(list: seq<Employee>, one: Employee)
    requires forall j :: 0 <= j < |list| ==> list[j].id != one.id
    ensures Upserted(list, one) == list + [one]
    ensures |Upserted(list, one)| == |list| + 1
  {
  }

  /** After an upsert the record is there, and a list with unique ids keeps them unique. */
  lemma UpsertKeepsDistinct(list: seq<Employee>, one: Employee)
    requires DistinctIds(list)
    ensures one in Upserted(list, one)
    ensures DistinctIds(Upserted(list, one))
  {
    var r := Upserted(list, one);
    match FindIndex(list, one.id)
    case None =>
      assert r[|list|] == one;
    case Some(i) =>
      assert r[i] == one;
      forall a, b | 0 <= a < b < |r| ensures r[a].id != r[b].id {
        if a != i && b != i {
          assert r[a] == list[a] && r[b] == list[b];
        } else if a == i {
          assert r[b] == list[b];
        } else {
          assert r[a] == list[a];
        }
      }
  }

  /** Upserting the same record twice is upserting it once. */
  lemma UpsertIdempotent(list: seq<Employee>, one: Employee)
    ensures Upserted(Upserted(list, one), one) == Upserted(list, one)
  {
    var r := Upserted(list, one);
    match FindIndex(list, one.id)
    case None =>
      assert r[|list|] == one;
      assert FindIndex(r, one.id) == Some(|list|) by {
        forall j | 0 <= j < |list| ensures r[j].id != one.id {
          assert r[j] == list[j];
        }
      }
    case Some(i) =>
      assert r == list[i := one];
      assert r[i] == one;
      assert FindIndex(r, one.id) == Some(i) by {
        forall j | 0 <= j < i ensures r[j].id != one.id {
          assert r[j] == list[j];
        }
      }
  }

  /** `removeEmployee` drops every element with that id and keeps the others, in order. */
  lemma RemoveDropsId(list: seq<Employee>, id: string)
    ensures forall e :: e in Removed(list, id) <==> e in list && e.id != id
    ensures forall e :: multiset(Removed(list, id))[e] == if e.id != id then multiset(list)[e] else 0
    ensures |Removed(list, id)| <= |list|
    ensures IsSubsequence(Removed(list, id), list)
  {
    FilterSubsequence(list, (e: Employee) => e.id != id);
    FilterMembership(list, (e: Employee) => e.id != id);
    FilterMultiset(list, (e: Employee) => e.id != id);
    FilterLength(list, (e: Employee) => e.id != id);
  }

  /** Removing after upserting leaves no record with that id. */
  lemma RemoveAfterUpsert(list: seq<Employee>, one: Employee)
    ensures forall e :: e in Removed(Upserted(list, one), one.id) ==> e.id != one.id
  {
    RemoveDropsId(Upserted(list, one), one.id);
  }

  /** The initial list has unique ids. */
  lemma InitialDistinct()
    ensures DistinctIds(Initial) && |Initial| == 4
  {
  }
}
