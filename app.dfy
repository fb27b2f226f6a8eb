/**
 * The application (src/App.js): it owns the list of days, seeds it once, and
 * applies the calendar's two callbacks to it, a single-day toggle for a tap and
 * a batch update at the end of a drag.
 */
module AppComponent {
  import opened CalendarComponent

  /** Number of days the application seeds. */
  const DayCount := 357

  /** Every index in `selection` is the index of one of `days`. */
  predicate IndicesWithin(days: seq<Day>, selection: seq<int>)
  {
    forall k :: 0 <= k < |selection| ==> 0 <= selection[k] < |days|
  }

  /** `days` with the active flag of day `dayIndex` flipped. */
  function ToggleAt(days: seq<Day>, dayIndex: int): (r: seq<Day>)
    requires 0 <= dayIndex < |days|
    ensures |r| == |days|
    ensures r[dayIndex].active == !days[dayIndex].active
    ensures r[dayIndex].id == days[dayIndex].id && r[dayIndex].number == days[dayIndex].number
    ensures forall j :: 0 <= j < |days| && j != dayIndex ==> r[j] == days[j]
  {
    days[dayIndex := days[dayIndex].(active := !days[dayIndex].active)]
  }

  /** Toggling the same day twice gives back the original days. */
  lemma ToggleAtTwice(days: seq<Day>, dayIndex: int)
    requires 0 <= dayIndex < |days|
    ensures ToggleAt(ToggleAt(days, dayIndex), dayIndex) == days
  {
  }

  /**
   * `days` after setting the active flag to `active` at each index of
   * `selection`, in order: exactly the listed days get the flag, and nothing
   * else about any day changes.
   */
  function SetActive(days: seq<Day>, selection: seq<int>, active: bool): (r: seq<Day>)
    requires IndicesWithin(days, selection)
    ensures |r| == |days|
    ensures forall j :: 0 <= j < |days| ==>
              r[j] == if j in selection then days[j].(active := active) else days[j]
    decreases |selection|
  {
    if selection == [] then days
    else
      var i := selection[0];
      assert forall j :: j in selection <==> j == i || j in selection[1..];
      SetActive(days[i := days[i].(active := active)], selection[1..], active)
  }

  /** Applying the same batch update twice is the same as applying it once. */
  lemma SetActiveIdempotent(days: seq<Day>, selection: seq<int>, active: bool)
    requires IndicesWithin(days, selection)
    ensures IndicesWithin(SetActive(days, selection, active), selection)
    ensures SetActive(SetActive(days, selection, active), selection, active) == SetActive(days, selection, active)
  {
  }

  /**
   * A batch update depends only on which indices are listed, not on their
   * order or repetitions.
   */
  lemma SetActiveOrderInsensitive(days: seq<Day>, selection: seq<int>, other: seq<int>, active: bool)
    requires IndicesWithin(days, selection)
    requires forall i :: i in selection <==> i in other
    ensures IndicesWithin(days, other)
    ensures SetActive(days, selection, active) == SetActive(days, other, active)
  {
    forall k | 0 <= k < |other|
      ensures 0 <= other[k] < |days|
    {
      assert other[k] in other;
    }
    var a := SetActive(days, selection, active);
    var b := SetActive(days, other, active);
    forall j | 0 <= j < |days|
      ensures a[j] == b[j]
    {
    }
  }

  class App {
    var days: seq<Day>

    /**
     * The seeded days: day k (counting from 0) has id and number k + 1;
     * `coins` stands for the random active flags.
     */
    constructor (coins: seq<bool>)
      requires |coins| == DayCount
      ensures |days| == DayCount
      ensures forall k :: 0 <= k < |days| ==> days[k] == Day(k + 1, k + 1, coins[k])
    {
      days := [];
      new;
      var i := 1;
      while i <= DayCount
        invariant 1 <= i <= DayCount + 1
        invariant |days| == i - 1
        invariant forall k :: 0 <= k < |days| ==> days[k] == Day(k + 1, k + 1, coins[k])
      {
        days := days + [Day(i, i, coins[i - 1])];
        i := i + 1;
      }
    }

    /** A tap on a day flips its active flag. */
    method OnSingleCellSelection(dayIndex: int)
      requires 0 <= dayIndex < |days|
      modifies this
      ensures days == ToggleAt(old(days), dayIndex)
    {
      days := days[dayIndex := days[dayIndex].(active := !days[dayIndex].active)];
    }

    /**
     * The end of a drag: every listed day becomes active for a 'select' drag
     * and inactive for a 'deselect' drag.
     */
    method OnMultiSelectionEnd(selectionMode: Mode, selection: seq<int>)
      requires IndicesWithin(days, selection)
      modifies this
      ensures days == SetActive(old(days), selection, selectionMode == Select)
    {
      var active := selectionMode == Select;
      var index := 0;
      while index < |selection|
        invariant 0 <= index <= |selection|
        invariant |days| == |old(days)|
        invariant SetActive(days, selection[index..], active) == SetActive(old(days), selection, active)
      {
        var dayIndex := selection[index];
        assert selection[index..][1..] == selection[index + 1..];
        days := days[dayIndex := days[dayIndex].(active := active)];
        index := index + 1;
      }
    }
  }
}
