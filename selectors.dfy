/** Derived views of the reducer's state: the ranked list, a day's shifts, and who fits a demand. */
module Selectors {
  import opened Wrappers
  import opened Dict
  import opened Seqs
  import opened Sorting
  import opened Types
  import opened EmployeesReducer

  /** `score ?? 0` */
  function ScoreKey(e: Employee): real {
    e.score.GetOr(0.0)
  }

  /**
   * `selectAllEmployees`: every employee, highest score first, a missing
   * score counting as 0; the sort is stable.
   */
  function SelectAllEmployees(state: EmployeesState): (r: seq<Employee>)
    ensures SortedDesc(r, ScoreKey)
    ensures multiset(r) == multiset(Values(state.employees))
  {
    SortDescCorrect(Values(state.employees), ScoreKey);
    SortDesc(Values(state.employees), ScoreKey)
  }

  /** `selectAssignmentsForDate`: the shifts under that date, `[]` when there are none. */
  function SelectAssignmentsForDate(state: EmployeesState, dateISO: string): seq<ShiftEvent> {
    Get(state.assignments, dateISO).GetOr([])
  }

  /** Who may work a day of the given demand: `score! >= 70` for coffee, `score! < 80` for sandwich. */
  predicate Eligible(demand: Demand, e: Employee) {
    match demand
    case MixedDemand => true
    case CoffeeDemand => e.score.Some? && e.score.value >= 70.0
    case SandwichDemand => e.score.Some? && e.score.value < 80.0
  }

  /** `selectAvailableEmployeesForDemand` */
  function SelectAvailable(state: EmployeesState, demand: Demand): seq<Employee> {
    var list := Values(state.employees);
    match demand
    case MixedDemand => list
    case CoffeeDemand => Filter(list, (e: Employee) => e.score.Some? && e.score.value >= 70.0)
    case SandwichDemand => Filter(list, (e: Employee) => e.score.Some? && e.score.value < 80.0)
  }

  // ---------------------------------------------------------------------------
  // Lemmas

  /**
   * The available employees are exactly the eligible ones, each as often as
   * in the record and in the record's order (a sub-sequence); a mixed day
   * offers everyone.
   */
  lemma SelectAvailableEligible(state: EmployeesState, demand: Demand)
    ensures forall e :: e in SelectAvailable(state, demand) <==> e in Values(state.employees) && Eligible(demand, e)
    ensures forall e :: (multiset(SelectAvailable(state, demand))[e] ==
      if Eligible(demand, e) then multiset(Values(state.employees))[e] else 0)
    ensures demand == MixedDemand ==> SelectAvailable(state, demand) == Values(state.employees)
    ensures IsSubsequence(SelectAvailable(state, demand), Values(state.employees))
  {
    var list := Values(state.employees);
    match demand
    case MixedDemand =>
      assert Embeds(list, list, seq(|list|, i => i));
    case CoffeeDemand =>
      FilterMembership(list, (e: Employee) => e.score.Some? && e.score.value >= 70.0);
      FilterSubsequence(list, (e: Employee) => e.score.Some? && e.score.value >= 70.0);
    case SandwichDemand =>
      FilterMembership(list, (e: Employee) => e.score.Some? && e.score.value < 80.0);
      FilterSubsequence(list, (e: Employee) => e.score.Some? && e.score.value < 80.0);
  }

  /**
   * An employee without a score is offered for neither coffee nor sandwich
   * days, while every scored employee is offered for at least one of them
   * (the thresholds overlap between 70 and 80).
   */
  lemma CoffeeOrSandwich(state: EmployeesState, e: Employee)
    requires e in Values(state.employees)
    ensures e.score.None? ==> e !in SelectAvailable(state, CoffeeDemand) && e !in SelectAvailable(state, SandwichDemand)
    ensures e.score.Some? ==> e in SelectAvailable(state, CoffeeDemand) || e in SelectAvailable(state, SandwichDemand)
    ensures (e in SelectAvailable(state, CoffeeDemand) && e in SelectAvailable(state, SandwichDemand))
        <==> e.score.Some? && 70.0 <= e.score.value < 80.0
  {
    SelectAvailableEligible(state, CoffeeDemand);
    SelectAvailableEligible(state, SandwichDemand);
  }

  /** A day with nothing scheduled reads as an empty list. */
  lemma NoAssignmentsIsEmpty(state: EmployeesState, dateISO: string)
    requires dateISO !in Keys(state.assignments)
    ensures SelectAssignmentsForDate(state, dateISO) == []
  {
  }

  /** Assigning a shift appends it to the list of its start's day and leaves other days alone. */
  lemma SelectAfterAssign(state: EmployeesState, d: ShiftDraft, freshId: string, dayKey: Instant -> string, other: string)
    ensures SelectAssignmentsForDate(Reduce(state, Assign(d), freshId, dayKey), dayKey(d.start))
         == SelectAssignmentsForDate(state, dayKey(d.start)) + [NewShift(freshId, d)]
    ensures other != dayKey(d.start) ==>
      SelectAssignmentsForDate(Reduce(state, Assign(d), freshId, dayKey), other) == SelectAssignmentsForDate(state, other)
  {
  }

  /** Unassigning removes every shift with that id from that day's list and keeps the rest in order. */
  lemma SelectAfterUnassign(state: EmployeesState, id: string, dateISO: string)
    ensures forall s :: s in SelectAssignmentsForDate(Reduce(state, Unassign(id, dateISO), "", _ => ""), dateISO)
                    <==> s in SelectAssignmentsForDate(state, dateISO) && s.id != id
    ensures |SelectAssignmentsForDate(Reduce(state, Unassign(id, dateISO), "", _ => ""), dateISO)|
         <= |SelectAssignmentsForDate(state, dateISO)|
    ensures forall s: ShiftEvent :: multiset(SelectAssignmentsForDate(Reduce(state, Unassign(id, dateISO), "", _ => ""), dateISO))[s]
                    == if s.id != id then multiset(SelectAssignmentsForDate(state, dateISO))[s] else 0
    ensures IsSubsequence(SelectAssignmentsForDate(Reduce(state, Unassign(id, dateISO), "", _ => ""), dateISO),
                          SelectAssignmentsForDate(state, dateISO))
  {
    var before := SelectAssignmentsForDate(state, dateISO);
    var p := (s: ShiftEvent) => s.id != id;
    assert SelectAssignmentsForDate(Reduce(state, Unassign(id, dateISO), "", _ => ""), dateISO) == Filter(before, p);
    FilterMembership(before, p);
    FilterSubsequence(before, p);
    FilterLength(before, p);
  }

  /** On the seed data: the ranking is Jason, Kyle, Emil, Mat. */
  lemma InitialRanking()
    ensures SelectAllEmployees(InitialState) == [
      SeedEmployees[3].1, SeedEmployees[1].1, SeedEmployees[0].1, SeedEmployees[2].1]
  {
    var v := Values(SeedEmployees);
    assert v == [SeedEmployees[0].1, SeedEmployees[1].1, SeedEmployees[2].1, SeedEmployees[3].1];
    assert ScoreKey(v[0]) == 72.0 && ScoreKey(v[1]) == 88.0 && ScoreKey(v[2]) == 68.0 && ScoreKey(v[3]) == 91.0;
    assert SortDesc(v[3..], ScoreKey) == [v[3]];
    assert InsertDesc(v[2], [], ScoreKey) == [v[2]];
    assert InsertDesc(v[2], [v[3]], ScoreKey) == [v[3], v[2]];
    assert SortDesc(v[2..], ScoreKey) == [v[3], v[2]];
    assert InsertDesc(v[1], [v[2]], ScoreKey) == [v[1], v[2]];
    assert InsertDesc(v[1], [v[3], v[2]], ScoreKey) == [v[3], v[1], v[2]];
    assert SortDesc(v[1..], ScoreKey) == [v[3], v[1], v[2]];
    assert InsertDesc(v[0], [v[2]], ScoreKey) == [v[0], v[2]];
    assert InsertDesc(v[0], [v[1], v[2]], ScoreKey) == [v[1], v[0], v[2]];
    assert InsertDesc(v[0], [v[3], v[1], v[2]], ScoreKey) == [v[3], v[1], v[0], v[2]];
  }
}
