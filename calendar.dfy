/**
 * The Calendar component (src/components/Calendar.js): a grid of day cells in
 * which a long press on a cell starts a drag that selects or deselects the run
 * of cells between that anchor cell and the pointer, auto-scrolling the list
 * while the pointer is near its top or bottom edge.
 *
 * The component's state is the fields of class Calendar; each event handler is
 * a method that updates them. The `days` and `cellsPerRow` props are a method
 * parameter and a constant field.
 */
module CalendarComponent {
  import opened Wrappers
  import opened CalendarGeometry

  /** Number of cells per grid row when the prop is not given. */
  const DefaultCellsPerRow := 7
  /** Pixels the list moves per update while auto-scrolling. */
  const ScrollIncrementation := 10
  /** Distance from the list's top or bottom edge at which auto-scroll starts. */
  const DistanceBeforeManualScroll := 50
  /** maxScrollOffset before the list reports its first scroll. */
  const InitialMaxScrollOffset := 1000

  /** A day record as the application supplies it. */
  datatype Day = Day(id: int, number: int, active: bool)

  /** The two kinds of drag: 'select' and 'deselect'. */
  datatype Mode = Select | Deselect

  datatype Layout = Layout(width: int, height: int)

  /** The arguments of one onMultiSelectionEnd callback. */
  datatype Emission = MultiSelectionEnd(mode: Mode, selection: seq<int>)

  /** A day as handed to the list for display, with its highlight and run-edge flags. */
  datatype RenderedCell = RenderedCell(id: int, number: int, active: bool,
                                       selected: bool, deselected: bool,
                                       first: bool, last: bool)

  /** What render passes to the list: the cells and whether native scrolling is on. */
  datatype CalendarView = CalendarView(cells: seq<RenderedCell>, scrollEnabled: bool)

  class Calendar {
    const cellsPerRow: int

    var multiSelectionMode: Option<Mode>
    var initialSelectedCellIndex: Option<int>
    var currentSelection: seq<int>
    var cellLayout: Layout
    var calendarLayout: Layout
    var shouldScrollUp: bool
    var shouldScrollDown: bool
    var scrollOffset: int
    var maxScrollOffset: int

    /**
     * A drag is in progress exactly when both a mode and an anchor are set,
     * and there is no selection outside a drag.
     */
    ghost predicate Valid()
      reads this
    {
      && cellsPerRow > 0
      && (multiSelectionMode.Some? <==> initialSelectedCellIndex.Some?)
      && (multiSelectionMode.None? ==> currentSelection == [])
    }

    /** Every selected index is the index of one of `count` days. */
    predicate SelectionWithin(count: int)
      reads this
    {
      forall k :: 0 <= k < |currentSelection| ==> 0 <= currentSelection[k] < count
    }

    constructor (cellsPerRow: int)
      requires cellsPerRow > 0
      ensures Valid()
      ensures this.cellsPerRow == cellsPerRow
      ensures multiSelectionMode == None && initialSelectedCellIndex == None && currentSelection == []
      ensures cellLayout == Layout(0, 0) && calendarLayout == Layout(0, 0)
      ensures !shouldScrollUp && !shouldScrollDown
      ensures scrollOffset == 0 && maxScrollOffset == InitialMaxScrollOffset
    {
      this.cellsPerRow := cellsPerRow;
      multiSelectionMode := None;
      initialSelectedCellIndex := None;
      currentSelection := [];
      cellLayout := Layout(0, 0);
      calendarLayout := Layout(0, 0);
      shouldScrollUp := false;
      shouldScrollDown := false;
      scrollOffset := 0;
      maxScrollOffset := InitialMaxScrollOffset;
    }

    /**
     * The scroll request componentDidUpdate issues after a state change, if
     * any. Scrolling up wins when both flags are set; it never goes above the
     * top. Scrolling down stops at maxScrollOffset unless that is 0.
     */
    method ComponentDidUpdate() returns (scrollTo: Option<int>)
      ensures scrollTo.None? <==> !shouldScrollUp && !shouldScrollDown
      ensures shouldScrollUp ==> scrollTo.Some? && scrollTo.value >= 0
      ensures shouldScrollUp && scrollOffset >= ScrollIncrementation ==>
                scrollTo == Some(scrollOffset - ScrollIncrementation)
      ensures shouldScrollUp && scrollOffset < ScrollIncrementation ==> scrollTo == Some(0)
      ensures !shouldScrollUp && shouldScrollDown && maxScrollOffset != 0 ==>
                scrollTo.Some?
                && (scrollOffset + ScrollIncrementation <= maxScrollOffset ==>
                      scrollTo.value == scrollOffset + ScrollIncrementation)
                && (scrollOffset + ScrollIncrementation > maxScrollOffset ==> scrollTo.value == maxScrollOffset)
      ensures !shouldScrollUp && shouldScrollDown && maxScrollOffset == 0 ==>
                scrollTo == Some(scrollOffset + ScrollIncrementation)
    {
      if shouldScrollUp {
        scrollTo := Some(Max(scrollOffset - ScrollIncrementation, 0));
      } else if shouldScrollDown {
        var scrollOffsetValue := if maxScrollOffset != 0
          then Min(scrollOffset + ScrollIncrementation, maxScrollOffset)
          else scrollOffset + ScrollIncrementation;
        scrollTo := Some(scrollOffsetValue);
      } else {
        scrollTo := None;
      }
    }

    /**
     * A long press on cell `cellIndex` anchors a drag there: pressing an
     * active day starts a deselecting drag, any other day a selecting one.
     * The current selection is left as it was.
     */
    method StartMultiSelection(days: seq<Day>, cellIndex: int)
      requires Valid()
      requires 0 <= cellIndex < |days|
      modifies this`multiSelectionMode, this`initialSelectedCellIndex
      ensures Valid()
      ensures multiSelectionMode == Some(if days[cellIndex].active then Deselect else Select)
      ensures initialSelectedCellIndex == Some(cellIndex)
    {
      var isCellAlreadyActive := days[cellIndex].active;
      multiSelectionMode := Some(if isCellAlreadyActive then Deselect else Select);
      initialSelectedCellIndex := Some(cellIndex);
    }

    /**
     * The end of a drag (release or termination): auto-scroll stops, and if a
     * drag was in progress its mode and selection are emitted once and the
     * drag state is cleared.
     */
    method HandlePanResponderEnd() returns (emitted: Option<Emission>)
      requires Valid()
      modifies this`shouldScrollUp, this`shouldScrollDown
      modifies this`multiSelectionMode, this`initialSelectedCellIndex, this`currentSelection
      ensures Valid()
      ensures !shouldScrollUp && !shouldScrollDown
      ensures old(multiSelectionMode).Some? ==>
                && emitted == Some(MultiSelectionEnd(old(multiSelectionMode).value, old(currentSelection)))
                && multiSelectionMode == None && initialSelectedCellIndex == None && currentSelection == []
      ensures old(multiSelectionMode).None? ==>
                && emitted == None
                && multiSelectionMode == None
                && initialSelectedCellIndex == old(initialSelectedCellIndex)
                && currentSelection == old(currentSelection)
    {
      shouldScrollDown, shouldScrollUp := false, false;
      if multiSelectionMode.Some? {
        emitted := Some(MultiSelectionEnd(multiSelectionMode.value, currentSelection));
        multiSelectionMode := None;
        initialSelectedCellIndex := None;
        currentSelection := [];
      } else {
        emitted := None;
      }
    }

    /**
     * A drag move to (locationX, locationY), measured from the anchor cell:
     * the selection becomes the run between the anchor and the cell under the
     * pointer, clipped to the days.
     */
    method HandleMultiSelection(days: seq<Day>, locationX: int, locationY: int)
      requires Valid() && initialSelectedCellIndex.Some?
      requires cellLayout.width > 0 && cellLayout.height > 0
      modifies this`currentSelection
      ensures Valid()
      ensures currentSelection == SelectionRange(
                initialSelectedCellIndex.value,
                FindCellIndex(initialSelectedCellIndex.value, cellsPerRow,
                              cellLayout.width, cellLayout.height, locationX, locationY),
                |days|)
      ensures SelectionWithin(|days|)
    {
      var anchor := initialSelectedCellIndex.value;
      var currentCellIndex := FindCellIndex(anchor, cellsPerRow, cellLayout.width, cellLayout.height,
                                            locationX, locationY);
      var startIndex := Max(Min(anchor, currentCellIndex), 0);
      var endIndex := Min(Max(anchor, currentCellIndex), |days| - 1);

      var selection := [];
      var i := startIndex;
      while i <= endIndex
        invariant startIndex <= i <= Max(startIndex, endIndex + 1)
        invariant |selection| == i - startIndex
        invariant forall k :: 0 <= k < |selection| ==> selection[k] == startIndex + k
      {
        selection := selection + [i];
        i := i + 1;
      }
      assert selection == Interval(startIndex, endIndex);
      currentSelection := selection;
    }

    /**
     * The pointer's height inside the visible list: the top of the anchor's
     * row, plus the drag's vertical distance from it, minus the scrolled-away
     * part of the list.
     */
    function CalendarRelativePositionY(locationY: int): (r: int)
      reads this
      requires Valid() && initialSelectedCellIndex.Some?
      ensures cellLayout.height == 0 ==> r == locationY - scrollOffset
      ensures cellLayout.height > 0 ==>
                var top := r + scrollOffset - locationY;
                top % cellLayout.height == 0
                && cellsPerRow * (top / cellLayout.height) <= initialSelectedCellIndex.value
                && initialSelectedCellIndex.value < cellsPerRow * (top / cellLayout.height) + cellsPerRow
    {
      var row := FloorDiv(initialSelectedCellIndex.value, cellsPerRow);
      var relativeY := row * cellLayout.height + locationY - scrollOffset;
      assert relativeY + scrollOffset - locationY == row * cellLayout.height;
      if cellLayout.height > 0 then MulDivCancel(row, cellLayout.height); relativeY
      else relativeY
    }

    /**
     * The auto-scroll flags after a move to `locationY`, given their values
     * `wasUp` and `wasDown` before it: near the bottom edge the down flag is
     * raised and the up flag kept, near the top edge the up flag is raised and
     * the down flag kept, elsewhere both are lowered.
     */
    ghost predicate ScrollFlagsFollow(locationY: int, wasUp: bool, wasDown: bool)
      reads this
      requires Valid() && initialSelectedCellIndex.Some?
    {
      var relativeY := CalendarRelativePositionY(locationY);
      if relativeY > calendarLayout.height - DistanceBeforeManualScroll then
        shouldScrollDown && shouldScrollUp == wasUp
      else if relativeY < DistanceBeforeManualScroll then
        shouldScrollUp && shouldScrollDown == wasDown
      else
        !shouldScrollUp && !shouldScrollDown
    }

    /** Sets the auto-scroll flags from the pointer's height in the list. */
    method HandleScroll(locationY: int)
      requires Valid() && initialSelectedCellIndex.Some?
      modifies this`shouldScrollUp, this`shouldScrollDown
      ensures Valid()
      ensures ScrollFlagsFollow(locationY, old(shouldScrollUp), old(shouldScrollDown))
    {
      var calendarRelativePositionY := CalendarRelativePositionY(locationY);
      if calendarRelativePositionY > calendarLayout.height - DistanceBeforeManualScroll {
        shouldScrollDown := true;
      } else if calendarRelativePositionY < DistanceBeforeManualScroll {
        shouldScrollUp := true;
      } else {
        shouldScrollDown, shouldScrollUp := false, false;
      }
    }

    /**
     * A pointer move delivered to the component. The component only takes
     * over a gesture while a drag is in progress; then the move updates the
     * selection and the auto-scroll flags.
     */
    method OnPanResponderMove(days: seq<Day>, locationX: int, locationY: int)
      requires Valid()
      requires cellLayout.width > 0 && cellLayout.height > 0
      modifies this`currentSelection, this`shouldScrollUp, this`shouldScrollDown
      ensures Valid()
      ensures old(multiSelectionMode).None? ==>
                && currentSelection == old(currentSelection)
                && shouldScrollUp == old(shouldScrollUp) && shouldScrollDown == old(shouldScrollDown)
      ensures multiSelectionMode.Some? ==>
                && currentSelection == SelectionRange(
                     initialSelectedCellIndex.value,
                     FindCellIndex(initialSelectedCellIndex.value, cellsPerRow,
                                   cellLayout.width, cellLayout.height, locationX, locationY),
                     |days|)
                && SelectionWithin(|days|)
                && ScrollFlagsFollow(locationY, old(shouldScrollUp), old(shouldScrollDown))
    {
      if multiSelectionMode.Some? {
        HandleMultiSelection(days, locationX, locationY);
        HandleScroll(locationY);
      }
    }

    /** The first cell reports its size. */
    method OnFirstCellLayout(width: int, height: int)
      requires Valid()
      modifies this`cellLayout
      ensures Valid()
      ensures cellLayout == Layout(width, height)
    {
      cellLayout := Layout(width, height);
    }

    /** The list reports its size. */
    method OnCalendarLayout(width: int, height: int)
      requires Valid()
      modifies this`calendarLayout
      ensures Valid()
      ensures calendarLayout == Layout(width, height)
    {
      calendarLayout := Layout(width, height);
    }

    /**
     * The list reports a scroll: the offset is its content offset and the
     * largest offset is the content height less the visible height.
     */
    method OnScroll(contentOffsetY: int, contentHeight: int, layoutMeasurementHeight: int)
      requires Valid()
      modifies this`scrollOffset, this`maxScrollOffset
      ensures Valid()
      ensures scrollOffset == contentOffsetY
      ensures maxScrollOffset == contentHeight - layoutMeasurementHeight
    {
      var maxScroll := contentHeight - layoutMeasurementHeight;
      maxScrollOffset, scrollOffset := maxScroll, contentOffsetY;
    }

    /** Cell `index` is highlighted as about to be selected. */
    function IsCellSelected(index: int): (selected: bool)
      reads this
      ensures selected ==> index in currentSelection
      ensures multiSelectionMode != Some(Select) ==> !selected
    {
      index in currentSelection && multiSelectionMode == Some(Select)
    }

    /**
     * Cell `index` is highlighted as about to be deselected; never together
     * with being highlighted as about to be selected, and never outside a drag.
     */
    function IsCellDeselected(index: int): (deselected: bool)
      reads this
      ensures deselected ==> index in currentSelection
      ensures deselected ==> !IsCellSelected(index)
      ensures multiSelectionMode.None? ==> !deselected
    {
      index in currentSelection && multiSelectionMode == Some(Deselect)
    }

    /** Cell `index` is drawn filled: its day is active or the drag highlights it. */
    predicate IsCellHighlighted(days: seq<Day>, index: int)
      reads this
      requires 0 <= index < |days|
    {
      days[index].active || IsCellSelected(index) || IsCellDeselected(index)
    }

    /** The display record of day `index`, as render builds it. */
    function RenderedCellAt(days: seq<Day>, index: int): (cell: RenderedCell)
      reads this
      requires 0 <= index < |days|
      ensures cell.first <==>
                IsCellHighlighted(days, index) && (index == 0 || !IsCellHighlighted(days, index - 1))
      ensures cell.last <==>
                IsCellHighlighted(days, index) && (index == |days| - 1 || !IsCellHighlighted(days, index + 1))
    {
      var day := days[index];
      var selected := IsCellSelected(index);
      var deselected := IsCellDeselected(index);
      var shown := day.active || selected || deselected;
      var first := shown && (index == 0 ||
        (!IsCellSelected(index - 1) && !IsCellDeselected(index - 1) && !days[index - 1].active));
      var last := shown && (index == |days| - 1 ||
        (!IsCellSelected(index + 1) && !IsCellDeselected(index + 1) && !days[index + 1].active));
      RenderedCell(day.id, day.number, day.active, selected, deselected, first, last)
    }

    /**
     * What render hands to the list. Each cell keeps its day's id, number and
     * active flag; `first` and `last` mark the two ends of each maximal run of
     * highlighted cells; native scrolling is on exactly when no drag is
     * anchored.
     */
    function Render(days: seq<Day>): (view: CalendarView)
      reads this
      ensures |view.cells| == |days|
      ensures forall i :: 0 <= i < |days| ==>
                && view.cells[i].id == days[i].id
                && view.cells[i].number == days[i].number
                && view.cells[i].active == days[i].active
                && view.cells[i].selected == IsCellSelected(i)
                && view.cells[i].deselected == IsCellDeselected(i)
      ensures forall i :: 0 <= i < |days| ==>
                (view.cells[i].first <==>
                   IsCellHighlighted(days, i) && (i == 0 || !IsCellHighlighted(days, i - 1)))
      ensures forall i :: 0 <= i < |days| ==>
                (view.cells[i].last <==>
                   IsCellHighlighted(days, i) && (i == |days| - 1 || !IsCellHighlighted(days, i + 1)))
      ensures view.scrollEnabled <==> initialSelectedCellIndex.None?
      ensures Valid() ==> (view.scrollEnabled <==> multiSelectionMode.None?)
    {
      var cells := seq(|days|, i requires 0 <= i < |days| reads this => RenderedCellAt(days, i));
      assert forall i :: 0 <= i < |days| ==> cells[i] == RenderedCellAt(days, i);
      CalendarView(cells, initialSelectedCellIndex == None)
    }

    /**
     * Every highlighted cell belongs to a stretch of highlighted cells that
     * opens on a cell marked `first`.
     */
    lemma {:induction false} RunHasFirst(days: seq<Day>, i: int) returns (f: int)
      requires 0 <= i < |days| && IsCellHighlighted(days, i)
      ensures 0 <= f <= i && Render(days).cells[f].first
      ensures forall k :: f <= k <= i ==> IsCellHighlighted(days, k)
      decreases i
    {
      if i == 0 || !IsCellHighlighted(days, i - 1) {
        f := i;
      } else {
        f := RunHasFirst(days, i - 1);
      }
    }

    /**
     * Every highlighted cell belongs to a stretch of highlighted cells that
     * closes on a cell marked `last`.
     */
    lemma {:induction false} RunHasLast(days: seq<Day>, i: int) returns (l: int)
      requires 0 <= i < |days| && IsCellHighlighted(days, i)
      ensures i <= l < |days| && Render(days).cells[l].last
      ensures forall k :: i <= k <= l ==> IsCellHighlighted(days, k)
      decreases |days| - i
    {
      if i == |days| - 1 || !IsCellHighlighted(days, i + 1) {
        l := i;
      } else {
        l := RunHasLast(days, i + 1);
      }
    }

    /**
     * From a highlighted cell up to the next cell marked `last`, every cell is
     * highlighted and none after the start is marked `first`: the marks
     * bracket maximal runs.
     */
    lemma {:induction false} RunContinuesToLast(days: seq<Day>, f: int, l: int)
      requires 0 <= f <= l < |days| && IsCellHighlighted(days, f)
      requires forall k :: f <= k < l ==> !Render(days).cells[k].last
      ensures forall k :: f <= k <= l ==> IsCellHighlighted(days, k)
      ensures forall k :: f < k <= l ==> !Render(days).cells[k].first
      decreases l - f
    {
      if f < l {
        assert !Render(days).cells[f].last;
        RunContinuesToLast(days, f + 1, l);
      }
    }
  }
}
