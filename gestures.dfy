/**
 * How the two components cooperate (src/App.js renders the Calendar of
 * src/components/Calendar.js with its days and callbacks): a tap is forwarded
 * to the application as a toggle, a long press anchors a drag, moves extend it,
 * and the release hands the drag's selection to the application.
 */
module Gestures {
  import opened Wrappers
  import opened CalendarGeometry
  import opened CalendarComponent
  import opened AppComponent

  /** The calendar is in a consistent state and its selection indexes the application's days. */
  ghost predicate Consistent(cal: Calendar, app: App)
    reads cal, app
  {
    cal.Valid() && cal.SelectionWithin(|app.days|)
  }

  /** A tap on a cell: the application toggles that day; the calendar is untouched. */
  method Tap(cal: Calendar, app: App, index: int)
    requires Consistent(cal, app)
    requires 0 <= index < |app.days|
    modifies app
    ensures Consistent(cal, app)
    ensures app.days == ToggleAt(old(app.days), index)
  {
    app.OnSingleCellSelection(index);
  }

  /** A long press on a cell anchors a drag there. */
  method LongPress(cal: Calendar, app: App, index: int)
    requires Consistent(cal, app)
    requires 0 <= index < |app.days|
    modifies cal`multiSelectionMode, cal`initialSelectedCellIndex
    ensures Consistent(cal, app)
    ensures cal.multiSelectionMode == Some(if app.days[index].active then Deselect else Select)
    ensures cal.initialSelectedCellIndex == Some(index)
    ensures cal.currentSelection == old(cal.currentSelection)
  {
    cal.StartMultiSelection(app.days, index);
  }

  /** A pointer move, once the first cell has been measured. */
  method Move(cal: Calendar, app: App, locationX: int, locationY: int)
    requires Consistent(cal, app)
    requires cal.cellLayout.width > 0 && cal.cellLayout.height > 0
    modifies cal`currentSelection, cal`shouldScrollUp, cal`shouldScrollDown
    ensures Consistent(cal, app)
    ensures cal.multiSelectionMode.Some? ==>
              cal.currentSelection == SelectionRange(
                cal.initialSelectedCellIndex.value,
                FindCellIndex(cal.initialSelectedCellIndex.value, cal.cellsPerRow,
                              cal.cellLayout.width, cal.cellLayout.height, locationX, locationY),
                |app.days|)
    ensures cal.multiSelectionMode.Some? ==>
              cal.ScrollFlagsFollow(locationY, old(cal.shouldScrollUp), old(cal.shouldScrollDown))
    ensures cal.multiSelectionMode.None? ==>
              && cal.currentSelection == old(cal.currentSelection)
              && cal.shouldScrollUp == old(cal.shouldScrollUp) && cal.shouldScrollDown == old(cal.shouldScrollDown)
  {
    cal.OnPanResponderMove(app.days, locationX, locationY);
  }

  /**
   * The pointer is released (or the gesture is taken away). After a
   * selecting drag every day of its selection is active, after a deselecting
   * drag every such day is inactive, and no other day changes; the calendar
   * is back to no drag and no auto-scroll.
   */
  method Release(cal: Calendar, app: App) returns (emitted: Option<Emission>)
    requires Consistent(cal, app)
    modifies cal`shouldScrollUp, cal`shouldScrollDown
    modifies cal`multiSelectionMode, cal`initialSelectedCellIndex, cal`currentSelection, app
    ensures Consistent(cal, app)
    ensures cal.multiSelectionMode.None? && cal.initialSelectedCellIndex.None? && cal.currentSelection == []
    ensures !cal.shouldScrollUp && !cal.shouldScrollDown
    ensures emitted == if old(cal.multiSelectionMode).Some?
                       then Some(MultiSelectionEnd(old(cal.multiSelectionMode).value, old(cal.currentSelection)))
                       else None
    ensures |app.days| == |old(app.days)|
    ensures forall j :: j in old(cal.currentSelection) ==>
              0 <= j < |app.days| && (app.days[j].active <==> old(cal.multiSelectionMode) == Some(Select))
    ensures forall j :: 0 <= j < |app.days| && j !in old(cal.currentSelection) ==> app.days[j] == old(app.days)[j]
    ensures forall j :: 0 <= j < |app.days| ==>
              app.days[j].id == old(app.days)[j].id && app.days[j].number == old(app.days)[j].number
  {
    emitted := cal.HandlePanResponderEnd();
    if emitted.Some? {
      app.OnMultiSelectionEnd(emitted.value.mode, emitted.value.selection);
    }
  }

  /**
   * A 7-per-row grid of 40-pixel cells: a drag from day 10 to two cells
   * right and one row down selects days 10 to 19, and releasing it makes them
   * all active.
   */
  method ScenarioDragAcrossRows()
  {
    var app := new App(seq(DayCount, k => false));
    var cal := new Calendar(DefaultCellsPerRow);
    cal.OnFirstCellLayout(40, 40);

    LongPress(cal, app, 10);
    assert cal.multiSelectionMode == Some(Select);
    FindCellIndexLocatesCell(10, DefaultCellsPerRow, 40, 40, 2 * 40 + 5, 40 + 3, 2, 1);
    Move(cal, app, 2 * 40 + 5, 40 + 3);
    assert cal.currentSelection == SelectionRange(10, 19, DayCount) == Interval(10, 19);

    var emitted := Release(cal, app);
    assert emitted == Some(MultiSelectionEnd(Select, Interval(10, 19)));
    assert 15 in Interval(10, 19);
    assert app.days[15].active;
  }

  /**
   * A drag that starts on an active day deselects: from day 5 to three cells
   * right it emits 'deselect' with days 5 to 8.
   */
  method ScenarioDeselectingDrag()
  {
    var app := new App(seq(DayCount, k => k == 5));
    var cal := new Calendar(DefaultCellsPerRow);
    cal.OnFirstCellLayout(40, 40);

    LongPress(cal, app, 5);
    assert cal.multiSelectionMode == Some(Deselect);
    FindCellIndexLocatesCell(5, DefaultCellsPerRow, 40, 40, 3 * 40 + 1, 0, 3, 0);
    Move(cal, app, 3 * 40 + 1, 0);
    assert cal.currentSelection == SelectionRange(5, 8, DayCount) == Interval(5, 8);

    var emitted := Release(cal, app);
    assert emitted == Some(MultiSelectionEnd(Deselect, Interval(5, 8)));
    assert 5 in Interval(5, 8);
    assert !app.days[5].active;
  }

  /** A drag far past the last day is clipped to the last day. */
  method ScenarioDragPastTheEnd()
  {
    var app := new App(seq(DayCount, k => false));
    var cal := new Calendar(DefaultCellsPerRow);
    cal.OnFirstCellLayout(40, 40);

    LongPress(cal, app, 350);
    FindCellIndexLocatesCell(350, DefaultCellsPerRow, 40, 40, 0, 100 * 40, 0, 100);
    Move(cal, app, 0, 100 * 40);
    assert cal.currentSelection == Interval(350, DayCount - 1);
  }

  /**
   * Released before any move, a drag emits an empty selection: the anchor
   * itself is not selected.
   */
  method ScenarioReleaseWithoutMove()
  {
    var app := new App(seq(DayCount, k => false));
    var cal := new Calendar(DefaultCellsPerRow);

    LongPress(cal, app, 3);
    var emitted := Release(cal, app);
    assert emitted == Some(MultiSelectionEnd(Select, []));
    assert !app.days[3].active;
  }

  /** A tap toggles one day and leaves the calendar without a drag. */
  method ScenarioTap()
  {
    var app := new App(seq(DayCount, k => false));
    var cal := new Calendar(DefaultCellsPerRow);

    Tap(cal, app, 3);
    assert app.days[3].active;
    assert cal.multiSelectionMode == None;
  }

  /**
   * Auto-scrolling down near the end of the list stops at maxScrollOffset:
   * at offset 990 of 1000 the next request is 1000. Unlike the other
   * scenarios this one does not go through Move: after the long press it
   * calls only the scroll handler, with the pointer near the bottom edge.
   */
  method ScenarioScrollDownClamped()
  {
    var app := new App(seq(DayCount, k => false));
    var cal := new Calendar(DefaultCellsPerRow);
    cal.OnFirstCellLayout(40, 40);
    cal.OnCalendarLayout(280, 600);
    cal.OnScroll(990, 1600, 600);
    assert cal.scrollOffset == 990 && cal.maxScrollOffset == 1000;

    LongPress(cal, app, 210);
    FloorDivUnique(210, DefaultCellsPerRow, 30);
    cal.HandleScroll(400);
    assert cal.CalendarRelativePositionY(400) == 610;
    assert cal.calendarLayout.height == 600;
    assert cal.shouldScrollDown && !cal.shouldScrollUp;
    assert cal.scrollOffset == 990 && cal.maxScrollOffset == 1000;
    var scrollTo := cal.ComponentDidUpdate();
    assert scrollTo == Some(1000);
  }

  /**
   * A pointer taken straight from the top edge to the bottom edge raises the
   * down flag without lowering the up flag, and scrolling up then wins. Like
   * the clamped scenario, this one calls only the scroll handler after the
   * long press, once per pointer position.
   */
  method ScenarioBothScrollFlags()
  {
    var app := new App(seq(DayCount, k => false));
    var cal := new Calendar(DefaultCellsPerRow);
    cal.OnFirstCellLayout(40, 40);
    cal.OnCalendarLayout(280, 600);
    cal.OnScroll(200, 1600, 600);
    assert cal.scrollOffset == 200;

    LongPress(cal, app, 35);
    cal.HandleScroll(0);
    assert cal.shouldScrollUp && !cal.shouldScrollDown by {
      FloorDivUnique(35, DefaultCellsPerRow, 5);
      assert cal.CalendarRelativePositionY(0) == 0;
      assert cal.calendarLayout.height == 600;
    }
    cal.HandleScroll(600);
    assert cal.shouldScrollUp && cal.shouldScrollDown by {
      FloorDivUnique(35, DefaultCellsPerRow, 5);
      assert cal.CalendarRelativePositionY(600) == 600;
      assert cal.calendarLayout.height == 600;
    }
    assert cal.scrollOffset == 200 >= ScrollIncrementation;
    var scrollTo := cal.ComponentDidUpdate();
    assert scrollTo == Some(190);
  }
}
