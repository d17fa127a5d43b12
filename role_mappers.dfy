/** Translations from the app's vocabulary to the scheduler's: demand to roles, a shift to an assignment. */
module RoleMappers {
  import opened Wrappers
  import opened Types

  /** `demandToSchedulerRoles` */
  function DemandToSchedulerRoles(demand: Demand): (r: seq<SchedulerRole>)
    ensures r != [] && MANAGER !in r
    ensures forall i, j :: 0 <= i < j < |r| ==> r[i] != r[j]
    ensures demand == CoffeeDemand ==> r == [BARISTA]
    ensures demand == SandwichDemand ==> r == [SANDWICH]
  {
    match demand
    case CoffeeDemand => [BARISTA]
    case SandwichDemand => [SANDWICH]
    case MixedDemand =>
      [BARISTA, SANDWICH, WAITER]
  }

  /** A mixed day asks for every role but the manager; a coffee or sandwich day for exactly one. */
  lemma DemandRolesCover(demand: Demand, role: SchedulerRole)
    ensures demand == MixedDemand ==> (role in DemandToSchedulerRoles(demand) <==> role != MANAGER)
    ensures demand != MixedDemand ==> |DemandToSchedulerRoles(demand)| == 1
  {
    var r := DemandToSchedulerRoles(demand);
    if demand == MixedDemand {
      match role
      case MANAGER =>
      case BARISTA => assert r[0] == role;
      case SANDWICH => assert r[1] == role;
      case WAITER => assert r[2] == role;
    }
  }

  /** The object `toSchedulerAssignment` builds. */
  datatype SchedulerAssignment = SchedulerAssignment(
    employeeId: string, role: SchedulerRole, start: string, end: string, tags: seq<ShiftTag>)

  /**
   * `toSchedulerAssignment`: `Closer` is sent as `BARISTA`, every other role
   * through `UI_TO_SCHEDULER_ROLE`; a missing ISO time is rendered from the
   * instant by `toISO` (`toISOString`), missing tags become `[]`.
   */
  function ToSchedulerAssignment(e: ShiftEvent, toISO: Instant -> string): (r: SchedulerAssignment)
    ensures r.employeeId == e.employeeId
    ensures e.role != Closer ==> SchedulerToUiRole(r.role) == e.role
    ensures e.role == Closer ==> r.role == BARISTA
    ensures r.role != MANAGER <==> e.role != Manager
    ensures r.start == (if e.startISO.Some? then e.startISO.value else toISO(e.start))
    ensures r.end == (if e.endISO.Some? then e.endISO.value else toISO(e.end))
    ensures e.tags.Some? ==> r.tags == e.tags.value
    ensures e.tags.None? ==> r.tags == []
  {
    var roleKey := if e.role == Closer then BARISTA else UiToSchedulerRole(e.role);
    RoleTablesInverse(e.role, roleKey);
    SchedulerAssignment(
      e.employeeId, roleKey,
      e.startISO.GetOr(toISO(e.start)), e.endISO.GetOr(toISO(e.end)),
      e.tags.GetOr([]))
  }

  /** A closer's shift is sent exactly as the same shift in the coffee role. */
  lemma CloserAsCoffee(e: ShiftEvent, toISO: Instant -> string)
    requires e.role == Closer
    ensures ToSchedulerAssignment(e, toISO) == ToSchedulerAssignment(e.(role := Coffee), toISO)
  {
  }

  /** Translating back with `SCHEDULER_TO_UI_ROLE` recovers every role but `Closer`, which comes back as `Coffee`. */
  lemma RoleRoundTrip(e: ShiftEvent, toISO: Instant -> string)
    ensures SchedulerToUiRole(ToSchedulerAssignment(e, toISO).role) == if e.role == Closer then Coffee else e.role
  {
  }
}
