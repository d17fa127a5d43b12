/**
 * The app's shared vocabulary: roles on both sides of the scheduler
 * boundary and the tables between them, employees, shift events and the
 * day's demand.
 */
module Types {
  import opened Wrappers

  /** Roles as the scheduler names them. */
  datatype SchedulerRole = MANAGER | BARISTA | WAITER | SANDWICH

  /** Roles as the app shows them. */
  datatype Role = Coffee | Sandwich | Cashier | Closer | Manager

  /** `UI_TO_SCHEDULER_ROLE`: defined on every role but `Closer`. */
  function UiToSchedulerRole(r: Role): SchedulerRole
    requires r != Closer
  {
    match r
    case Coffee => BARISTA
    case Sandwich => SANDWICH
    case Cashier => WAITER
    case Manager => MANAGER
  }

  /** `SCHEDULER_TO_UI_ROLE` */
  function SchedulerToUiRole(s: SchedulerRole): (r: Role)
    ensures r != Closer
  {
    match s
    case BARISTA => Coffee
    case SANDWICH => Sandwich
    case WAITER => Cashier
    case MANAGER => Manager
  }

  /** The two tables are inverse to each other. */
  lemma RoleTablesInverse(r: Role, s: SchedulerRole)
    ensures UiToSchedulerRole(SchedulerToUiRole(s)) == s
    ensures r != Closer ==> SchedulerToUiRole(UiToSchedulerRole(r)) == r
  {
  }

  datatype FairnessColor = Green | Yellow | Red

  /** An employee record; `score` and `fairnessColor` are optional. */
  datatype Employee = Employee(id: string, name: string, score: Option<real>, fairnessColor: Option<FairnessColor>)

  datatype ShiftTag = CloserTag | Opener | Peak | Training

  /** A point in time (a JavaScript `Date`), as milliseconds. */
  type Instant = int

  /** A shift event; `tags`, `startISO` and `endISO` are optional. */
  datatype ShiftEvent = ShiftEvent(
    id: string, employeeId: string, role: Role, start: Instant, end: Instant,
    tags: Option<seq<ShiftTag>>, startISO: Option<string>, endISO: Option<string>)

  /** The demand of a day (`DayIndicators['demand']`). */
  datatype Demand = CoffeeDemand | SandwichDemand | MixedDemand
}
