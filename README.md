# Drag-to-select calendar, modelled in Dafny

This project models a React Native calendar. The calendar shows a grid of day
cells. A tap toggles one day. A long press on a day anchors a drag. While the
pointer moves, the run of cells between the anchor and the pointer is
highlighted as "select" or "deselect". Near the top or bottom edge of the list,
the list auto-scrolls in steps of 10. On release, the application sets every
day of the run active ("select") or inactive ("deselect").

Files:

- `wrappers.dfy`: module `Wrappers`, the `Option` type used for the nullable state fields.
- `geometry.dfy`: module `CalendarGeometry`, the pure arithmetic of `src/components/Calendar.js`.
  - `FloorDiv` is `Math.floor` of a quotient.
  - `FindCellIndex` maps a pointer to a cell, measured from the anchor.
  - `SelectionRange` is the clipped ascending run that a drag selects.
- `calendar.dfy`: module `CalendarComponent`.
  - Class `Calendar` holds the component's state fields. Each event handler is a method that updates them.
  - `ComponentDidUpdate` returns the scroll request instead of issuing it.
  - The highlight queries and `Render`'s run-edge flags are functions over the state.
  - `days` and `cellsPerRow` are props. `days` is passed to each method that reads it. `cellsPerRow` is a constant field.
- `app.dfy`: module `AppComponent`.
  - Class `App` owns the `days` list and seeds it.
  - It applies the two callbacks: a single toggle and a batch update.
  - Their specifications are the functions `ToggleAt` and `SetActive`.
- `gestures.dfy`: module `Gestures`, the wiring between the two components.
  - Tap, long press, move and release are connected to both components.
  - `Release` proves the end-to-end property. After a selecting drag, every day of the emitted run is active. After a deselecting drag, every such day is inactive. Nothing else changes.
  - `Scenario…` methods walk through concrete gestures. They cover the across-rows drag, a deselecting drag, clipping past the last day, a release with no move and a tap. Two auto-scroll scenarios call the scroll handler directly after a long press, without a move: the clamped downward scroll, and the case where both scroll flags are set.

Integer pixels: coordinates, cell sizes and offsets are `int`. `Math.floor(a / b)` with
`b > 0` is Dafny's `a / b`, which rounds down for a positive divisor. `FloorDiv` states
this.

The code has these quirks, and the model keeps them:

- A long press does not put the anchor into the selection. A release before any move emits an empty selection.
- A long press on an index outside the days is not a no-op: `days[cellIndex].active` throws. It is a precondition of `StartMultiSelection`.
- Auto-scroll is two independent flags, not one directive. Raising "down" keeps "up" as it was, and the reverse, so both can be set. When both are set, scrolling up wins.
- Downward scrolling is clamped to `maxScrollOffset` only when that value is non-zero.

## Model

| member | source | states |
|---|---|---|
| CalendarGeometry.FloorDiv | src/components/Calendar.js:114-115 | the quotient is the floor: `b*q <= a < b*q + b` |
| CalendarGeometry.FloorDivUnique | src/components/Calendar.js:114-115 | the floor is the only `q` whose cell `[b*q, b*q+b)` holds `a` |
| CalendarGeometry.FindCellIndex | src/components/Calendar.js:108-120 | the unclamped index `anchor + floor(x/w) + cellsPerRow*floor(y/h)`, stated by meaning: a pointer inside the anchor cell maps to the anchor, and `x` lies in the column the result names once the anchor and the pointer's row `floor(y/h)` are taken away |
| CalendarGeometry.FindCellIndexLocatesCell | src/components/Calendar.js:108-120 | a pointer inside the cell `columns` right and `rows` down from the anchor cell maps to `anchor + columns + cellsPerRow*rows`; the pointer is measured from the anchor |
| CalendarGeometry.FindCellIndexUnclamped | src/components/Calendar.js:117-119 | the index is not clamped: every integer, negative or past the last day, is produced by some pointer |
| CalendarGeometry.Interval | src/components/Calendar.js:132-135 | the pushed run has `hi-lo+1` elements (none when `lo > hi`) and element `k` is `lo+k` |
| CalendarGeometry.IntervalMembership | src/components/Calendar.js:132-135 | a number is in the run iff it lies between its bounds |
| CalendarGeometry.SelectionRange | src/components/Calendar.js:126-135 | the selection is ascending and consecutive; every element indexes a day; `i` is in it iff `min(anchor,c) <= i <= max(anchor,c)` and `0 <= i < count`; it holds the anchor (so is non-empty) whenever the anchor indexes a day, for any `c`, and holds `c` whenever `c` does |
| CalendarComponent.Calendar.constructor | src/components/Calendar.js:45-61 | initial state: no mode, no anchor, empty selection, 0×0 layouts, both flags off, offset 0, `maxScrollOffset` 1000 |
| CalendarComponent.Calendar.ComponentDidUpdate | src/components/Calendar.js:63-80 | no request iff neither flag is set; with the up flag (which wins), the target is `offset-10`, or `0` when that would be negative; otherwise, with the down flag, it is `offset+10` capped at a non-zero `maxScrollOffset`, or uncapped when `maxScrollOffset` is 0 |
| CalendarComponent.Calendar.StartMultiSelection | src/components/Calendar.js:82-92 | the mode is deselect iff the pressed day is active, otherwise select; the anchor is the pressed index; the selection and all other fields are unchanged |
| CalendarComponent.Calendar.HandlePanResponderEnd | src/components/Calendar.js:96-106 | both scroll flags end false; if a mode was set, `(mode, selection)` as it was before the call is emitted once and mode/anchor/selection become none/none/[]; otherwise nothing is emitted and nothing else changes |
| CalendarComponent.Calendar.HandleMultiSelection | src/components/Calendar.js:122-138 | the push loop leaves the selection equal to `SelectionRange(anchor, FindCellIndex(x, y), days.length)`, every element indexing a day; nothing else changes |
| CalendarComponent.Calendar.CalendarRelativePositionY | src/components/Calendar.js:141-145 | the pointer's height in the visible list: the top of the anchor's row, plus `y`, minus the scroll offset; the ensures pins the row top as the multiple of the cell height whose row holds the anchor (just `y - offset` while the cell height is still 0) |
| CalendarComponent.Calendar.HandleScroll | src/components/Calendar.js:140-157 | with `relY = floor(anchor/cellsPerRow)*cellHeight + y - offset`: above `height-50` the down flag is set and up kept; else below 50 the up flag is set and down kept; else both cleared |
| CalendarComponent.Calendar.OnPanResponderMove | src/components/Calendar.js:160-167 | a move is taken only while a mode is set, and then updates the selection and the scroll flags as the two handlers above; without a mode nothing changes |
| CalendarComponent.Calendar.OnFirstCellLayout | src/components/Calendar.js:173-184 | the cell layout becomes the measured size; nothing else changes |
| CalendarComponent.Calendar.OnCalendarLayout | src/components/Calendar.js:210-221 | the list layout becomes the measured size; nothing else changes |
| CalendarComponent.Calendar.OnScroll | src/components/Calendar.js:223-227 | offset is the content offset and `maxScrollOffset` is content height minus visible height; nothing else changes |
| CalendarComponent.Calendar.IsCellSelected | src/components/Calendar.js:186-187 | a selected-highlighted cell is in the selection, and none is highlighted unless the mode is select |
| CalendarComponent.Calendar.IsCellDeselected | src/components/Calendar.js:189-190 | a deselected-highlighted cell is in the selection, never also selected-highlighted, and never highlighted without a mode |
| CalendarComponent.Calendar.RenderedCellAt | src/components/Calendar.js:232-260 | `first` iff the cell is highlighted (active, selected or deselected) and is cell 0 or follows a cell that is not; `last` likewise with the last cell and the next one |
| CalendarComponent.Calendar.Render | src/components/Calendar.js:229-273 | one rendered cell per day, keeping id, number and active and carrying the two highlight flags; `first`/`last` mark the ends of highlighted runs; native scroll is enabled iff there is no anchor, i.e. iff no drag is in progress |
| CalendarComponent.Calendar.RunHasFirst | src/components/Calendar.js:241-249 | every highlighted cell lies in a highlighted stretch that opens on a cell marked `first` |
| CalendarComponent.Calendar.RunHasLast | src/components/Calendar.js:250-257 | every highlighted cell lies in a highlighted stretch that closes on a cell marked `last` |
| CalendarComponent.Calendar.RunContinuesToLast | src/components/Calendar.js:241-258 | from a highlighted cell to the next `last` mark, all cells are highlighted and none is marked `first`, so the marks bracket maximal runs |
| AppComponent.ToggleAt | src/App.js:23-29 | the toggled day's active flag is flipped, its id and number kept, every other day unchanged, the length kept |
| AppComponent.ToggleAtTwice | src/App.js:23-29 | toggling the same day twice restores the days |
| AppComponent.SetActive | src/App.js:31-37 | after the batch update, day `j` has `active` set iff `j` is listed, and is otherwise unchanged (id and number always kept, length kept) |
| AppComponent.SetActiveIdempotent | src/App.js:31-37 | applying the same batch update twice equals applying it once |
| AppComponent.SetActiveOrderInsensitive | src/App.js:33-35 | the result depends only on which indices are listed, not on their order or repetitions |
| AppComponent.App.constructor | src/App.js:17-21 | the seeding loop produces 357 days; day at position k has `id == number == k+1` and the given active flag |
| AppComponent.App.OnSingleCellSelection | src/App.js:23-29 | the days become `ToggleAt(old days, dayIndex)` |
| AppComponent.App.OnMultiSelectionEnd | src/App.js:31-37 | the loop leaves the days equal to `SetActive(old days, selection, mode == select)` |
| Gestures.Tap | src/components/Calendar.js:94 | a tap toggles that day in the application and leaves the calendar untouched |
| Gestures.LongPress | src/components/Calendar.js:199 | a long press starts a drag anchored on that day and keeps the calendar consistent with the days |
| Gestures.Move | src/components/Calendar.js:162-167 | a move during a drag sets the selection to the clipped run from the anchor to the cell under the pointer, and updates the scroll flags |
| Gestures.Release | src/components/Calendar.js:168-169 | release or termination ends the drag with no auto-scroll; after a select drag every emitted index is active, after a deselect drag every one is inactive; other days, ids, numbers and the length are unchanged |

## Left out

- Vibration on long press (`Vibration.vibrate`) is a device side effect with no state.
- The gesture primitives are left out. This covers `PanResponder`, `TouchableWithoutFeedback` and the 500 ms long-press timing. They are foreign event sources: the model takes their outputs (tap, long press, move, release/terminate) as method calls.
- The `FlatList` widget, its rendering, and the `renderCell` mutation of the list item are left out. The scroll request is returned by `ComponentDidUpdate`. The list reports the offset back later through `OnScroll`, so the model does not apply the request itself.
- `src/components/CalendarDay.js` is not part of this model. It only picks colours and corner radii from the flags that `Render` computes.
- `Math.random()` in the seeding loop is replaced by a parameter of the `App` constructor, so the active flags are arbitrary input.
- Floating-point layout is left out: coordinates, sizes and offsets are integers. The source divides by the cell size, which is 0 until the first cell reports its layout. A move therefore requires a positive cell size. `cellsPerRow` is required to be positive.
- React's asynchronous `setState` and its batching are left out. Each handler's updates take effect at once. The reads in the end handler see the pre-reset mode and selection either way.
- Aliasing of the days array is left out. The application mutates the same array that the calendar reads as a prop. The model passes `app.days` to the calendar at every event.
- `HandleMultiSelection`, `HandleScroll` and `CalendarRelativePositionY` require an anchor. In the source, a null anchor would be coerced to 0. That state cannot arise there: moves reach the handlers only while a mode is set, and a mode is set exactly when an anchor is.
- `FindCellIndex` being deterministic (the same pointer always gives the same index) holds because it is a function, so no lemma states it.
