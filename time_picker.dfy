/**
 * The stepping rules of the time picker row: the list of time options
 * (`TIME_OPTIONS`, given as a parameter) is walked one step at a time, never
 * past its ends, and never back to or before an optional minimum time.
 */
module TimePicker {
  import opened Wrappers

  /** `findIndex(time => time === value)`: the first position of `value`, or -1. */
  function IndexOf(options: seq<string>, value: string): (r: int)
    ensures -1 <= r < |options|
    ensures r >= 0 ==> options[r] == value && forall j :: 0 <= j < r ==> options[j] != value
    ensures r == -1 <==> value !in options
  {
    if options == [] then -1
    else if options[0] == value then 0
    else
      var i := IndexOf(options[1..], value);
      if i == -1 then -1 else i + 1
  }

  /** `minTime ?`: the minimum counts only when given and non-empty. */
  predicate HasMin(minTime: Option<string>) {
    minTime.Some? && minTime.value != ""
  }

  /**
   * `effectiveMinIndex`: the first index after the first occurrence of the
   * minimum; 0 when there is no minimum or it is not an option.
   */
  function EffectiveMinIndex(options: seq<string>, minTime: Option<string>): (r: nat)
    ensures r <= |options|
    ensures HasMin(minTime) && minTime.value in options ==>
      && r >= 1
      && options[r - 1] == minTime.value
      && (forall j :: 0 <= j < r - 1 ==> options[j] != minTime.value)
    ensures HasMin(minTime) && minTime.value !in options ==> r == 0
    ensures !HasMin(minTime) ==> r == 0
  {
    if HasMin(minTime) then
      var minIndex := IndexOf(options, minTime.value);
      if 0 < minIndex + 1 then minIndex + 1 else 0
    else 0
  }

  /** `handlePrevious`: the value passed to `onChange`, or `None` when nothing is emitted. */
  function Previous(options: seq<string>, value: string, minTime: Option<string>): Option<string> {
    var targetIndex := IndexOf(options, value) - 1;
    if targetIndex >= EffectiveMinIndex(options, minTime) then Some(options[targetIndex]) else None
  }

  /** `handleNext` */
  function Next(options: seq<string>, value: string): Option<string> {
    var currentIndex := IndexOf(options, value);
    if currentIndex < |options| - 1 then Some(options[currentIndex + 1]) else None
  }

  /** `isAtMinimum` */
  predicate IsAtMinimum(options: seq<string>, value: string, minTime: Option<string>) {
    IndexOf(options, value) <= EffectiveMinIndex(options, minTime)
  }

  /** `isAtMaximum` */
  predicate IsAtMaximum(options: seq<string>, value: string) {
    IndexOf(options, value) == |options| - 1
  }

  predicate Distinct(options: seq<string>) {
    forall i, j :: 0 <= i < j < |options| ==> options[i] != options[j]
  }

  // ---------------------------------------------------------------------------
  // Lemmas

  /** In a list without repeats, the index of the element at `i` is `i`. */
  lemma IndexOfDistinct(options: seq<string>, i: nat)
    requires Distinct(options) && i < |options|
    ensures IndexOf(options, options[i]) == i
  {
  }

  /**
   * Previous emits exactly when the minimum indicator is off; what it emits
   * is the option just before the current one, and it lies strictly after
   * the minimum time in the list.
   */
  lemma PreviousSpec(options: seq<string>, value: string, minTime: Option<string>)
    ensures Previous(options, value, minTime).None? <==> IsAtMinimum(options, value, minTime)
    ensures Previous(options, value, minTime).Some? ==>
      && value in options
      && Previous(options, value, minTime).value == options[IndexOf(options, value) - 1]
      && Previous(options, value, minTime).value in options
      && (HasMin(minTime) ==> IndexOf(options, minTime.value) < IndexOf(options, value) - 1)
  {
  }

  /**
   * Next emits exactly when the maximum indicator is off; it emits the
   * option just after the current one, so never anything past the last.
   */
  lemma NextSpec(options: seq<string>, value: string)
    ensures Next(options, value).None? <==> IsAtMaximum(options, value)
    ensures Next(options, value).Some? ==>
      Next(options, value).value == options[IndexOf(options, value) + 1] && Next(options, value).value in options
  {
  }

  /** A value that is not an option: next emits the first option, previous emits nothing. */
  lemma UnknownValue(options: seq<string>, value: string, minTime: Option<string>)
    requires value !in options && options != []
    ensures Next(options, value) == Some(options[0])
    ensures Previous(options, value, minTime).None?
  {
  }

  /** In a list without repeats, stepping forward and then back returns to the start whenever the minimum allows the start. */
  lemma NextThenPrevious(options: seq<string>, value: string, minTime: Option<string>)
    requires Distinct(options)
    requires value in options && IndexOf(options, value) >= EffectiveMinIndex(options, minTime)
    requires Next(options, value).Some?
    ensures Previous(options, Next(options, value).value, minTime) == Some(value)
  {
    var i := IndexOf(options, value);
    IndexOfDistinct(options, i + 1);
  }

  /** In a list without repeats, stepping back and then forward returns to the start. */
  lemma PreviousThenNext(options: seq<string>, value: string, minTime: Option<string>)
    requires Distinct(options)
    requires Previous(options, value, minTime).Some?
    ensures Next(options, Previous(options, value, minTime).value) == Some(value)
  {
    var i := IndexOf(options, value);
    IndexOfDistinct(options, i - 1);
  }
}
