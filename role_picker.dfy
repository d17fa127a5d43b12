/** The role picker row: the four roles are walked in a cycle in both directions. */
module RolePicker {
  import opened Wrappers

  /** `ROLE_OPTIONS` */
  const RoleOptions: seq<string> := ["Manager", "Waiter", "Barista", "Sandwich"]

  /** `currentIndex`: the position of `value`, or -1. */
  function CurrentIndex(value: string): (r: int)
    ensures -1 <= r < |RoleOptions|
    ensures r >= 0 ==> RoleOptions[r] == value
    ensures r == -1 <==> value !in RoleOptions
  {
    if value == RoleOptions[0] then 0
    else if value == RoleOptions[1] then 1
    else if value == RoleOptions[2] then 2
    else if value == RoleOptions[3] then 3
    else -1
  }

  /** `handleNext`: the first role after the last, and after a value that is not a role. */
  function Next(value: string): string {
    var i := CurrentIndex(value);
    var newIndex := if i == |RoleOptions| - 1 then 0 else i + 1;
    RoleOptions[newIndex]
  }

  /**
   * `handlePrevious`: the last role before the first. For a value that is
   * not a role the index is -2 and the emitted value `undefined` (`None`).
   */
  function Previous(value: string): Option<string> {
    var i := CurrentIndex(value);
    var newIndex := if i == 0 then |RoleOptions| - 1 else i - 1;
    if 0 <= newIndex then Some(RoleOptions[newIndex]) else None
  }

  /** Four steps forward. */
  function Next4(value: string): string {
    Next(Next(Next(Next(value))))
  }

  // ---------------------------------------------------------------------------
  // Lemmas

  /** Both directions wrap around at the ends of the list. */
  lemma Wraps()
    ensures Next("Sandwich") == "Manager"
    ensures Previous("Manager") == Some("Sandwich")
  {
  }

  /** Each step from a role lands on the neighbouring role, taken cyclically. */
  lemma StepsAreCyclic(value: string)
    requires value in RoleOptions
    ensures Next(value) == RoleOptions[(CurrentIndex(value) + 1) % |RoleOptions|]
    ensures Previous(value) == Some(RoleOptions[(CurrentIndex(value) + |RoleOptions| - 1) % |RoleOptions|])
  {
  }

  /** Forward then back, and back then forward, return to the starting role. */
  lemma StepsInverse(value: string)
    requires value in RoleOptions
    ensures Previous(Next(value)) == Some(value)
    ensures Previous(value).Some? && Next(Previous(value).value) == value
  {
  }

  /** Four steps forward come back to the starting role; from a value that is not a role they end on the last role. */
  lemma FourStepsIdentity(value: string)
    ensures value in RoleOptions ==> Next4(value) == value
    ensures value !in RoleOptions ==> Next4(value) == "Sandwich"
  {
  }

  /** A value that is not a role: next emits the first role, previous emits nothing. */
  lemma UnknownRole(value: string)
    requires value !in RoleOptions
    ensures Next(value) == "Manager"
    ensures Previous(value).None?
  {
  }
}
