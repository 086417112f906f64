# Auto-hiding screen-edge dock: verified model

This project models the behaviour core of `dock.py`, a PyQt widget that docks to one screen edge, slides almost off screen when the pointer has been gone for 500 ms, and slides back when the pointer returns. The model covers three parts:

- **Edge-relative geometry** (module `Geometry`). This covers where the dock sits when shown (`get_visible_geometry`), where it parks when hidden (`get_hidden_geometry`), where `place_dock` moves it, and the minimum and maximum size `update_size` sets. The screen origin is (0, 0), and Python's `// 2` is floor division, which is Dafny's `/` for a divisor of 2.
- **The auto-hide state machine** (module `AutoHide`). It tracks `is_hidden`, `settings_dialog_open`, the single-shot `hide_timer` (stopped, or pending with its 500 ms delay) and the geometry animation. The animation is recorded as its start and end values plus whether it is still running. `is_hidden` flips when an animation starts, as in the code. Each event handler is a pure transition. `Run` applies a sequence of events, and the trace lemmas are stated over `Run`.
- **Settings load and apply** (module `Settings` and `Dock.DockWindow`). The file is an input: missing, unreadable (open or parse failure), or a parsed document with every key present. Each call to `save_settings` is appended to `savedDocuments` instead of being written.

`Dock.DockWindow` is the widget as a class whose fields the methods update in place. Each class method's postcondition ties the new state to the matching pure function: `AutoHideState()` goes through the `AutoHide` transitions, `geometry` through `Geometry` and the settings through `Settings.Load`. Its invariant `Valid()` is `AutoHide.Consistent`: an open settings dialog implies a shown dock, and a running animation has end values.

Notes on the code:

- There are no separate "animating in/out" states. `is_hidden` is the only state flag.
- A parsed settings file missing a key raises an error at `dock.py:210-214`; keys are not defaulted one by one. The model therefore only loads complete documents.
- For an edge name other than the four, the code falls through differently in each function. `get_visible_geometry` treats it as right, `get_hidden_geometry` as bottom, and `update_size` as left/right. `place_dock` does not move the dock at all. The model keeps each of these fall-throughs (`PlacedGeometry` states the last one).
- `dock_height` is stored, loaded and saved, but nothing in the geometry uses it. `update_size` bounds both orientations by `size` alone.

## Model

| member | source | states |
|---|---|---|
| Geometry.VisibleGeometry | dock.py:336-345 | The size is kept. Top: `offset` from the top edge, centred horizontally (the two margins differ by at most 1). Bottom: bottom side exactly `offset` above the screen bottom, centred horizontally. Left: `offset` from the left, centred vertically. Right and any unknown edge: right side exactly `offset` from the screen's right, centred vertically. |
| Geometry.HiddenGeometry | dock.py:324-334 | The current rect's width, height and along-edge coordinate are kept. Exactly 5 units remain on the dock's side: left `x + w == 5`, right `sw - x == 5`, top `y + h == 5`, bottom and unknown edges `sh - y == 5`. |
| Geometry.PlacedGeometry | dock.py:289-298 | Computed by `place_dock`'s own branches. For the four edges it equals the visible rect for the same edge, offset, size and screen. For any other edge name the dock does not move. The size is always unchanged. |
| Geometry.VisibleInsideScreen | dock.py:336-345 | For any edge name, a dock that fits on the screen together with its offset lies wholly inside the screen when shown. |
| Geometry.HiddenLeavesSliver | dock.py:324-334 | For a dock and screen at least 5 units in size, the hidden rect overlaps the screen by exactly 5 units across its edge. Its overlap along the edge equals that of the current rect. |
| Geometry.Thickness | dock.py:261 | `max(size, 40)`: at least the configured size, at least 40, and equal to one of them. |
| Geometry.CapExtent | dock.py:261-265 | Qt's cap on a size limit: at most 16777215; a value within it is kept and a larger one becomes 16777215. |
| Geometry.SizeLimits | dock.py:260-265 | Top/bottom: height fixed at the thickness capped at 16777215, width from 120 up to 16777215. Every other edge: width fixed at the capped thickness, height from 120 up to 16777215. |
| Geometry.BoundedSize | dock.py:259-271 | Per axis, the result lies within consistent limits. It equals the request when the request is within them, the minimum when the request is below it, and the maximum when the request is above it. This models Qt bounding a resize to the minimum and maximum. |
| Geometry.BoundedSizeFitsEdge | dock.py:258-271 | Whatever size the layout asks for, the dock ends up `Thickness(size)` thick across its edge, capped at 16777215 as Qt caps it (so exactly `Thickness(size)` for a configured size up to 16777215), and between 120 and 16777215 long. |
| Settings.DefaultSettings | dock.py:217-226 | Left edge and colour `#000000`. The defaults (transparency 60, 50 by 300) lie within the ranges the settings dialog allows. |
| Settings.Load | dock.py:198-215 | Something is saved exactly when the file is missing or unreadable. A parsed document is used unchanged. Otherwise the defaults are used and the defaults are what gets saved. |
| Settings.ReloadIsStable | dock.py:198-209 | After a load's save has been written, loading again yields the same settings and saves nothing. |
| AutoHide.StartHide | dock.py:308-314 | Changes nothing when the dock is already hidden or a dialog is open. Otherwise it sets hidden and starts an animation from the current geometry to the hidden rect. The timer, the dialog flag and the geometry are never touched. |
| AutoHide.StartShow | dock.py:316-322 | The dock is shown afterwards. When it was not hidden, nothing changes. When it was hidden, an animation starts from the current geometry, possibly mid-hide, to the visible rect for that size. |
| AutoHide.OnEnter | dock.py:300-303 | The timer is always stopped. If the dock was shown, only the timer changes. If it was hidden, it becomes shown and a show animation starts from the current geometry, which is itself unchanged. |
| AutoHide.OnLeave | dock.py:305-306 | The timer is pending with a 500 ms delay, and nothing else changes. |
| AutoHide.OnTimeout | dock.py:157-159 | A stopped timer does nothing. A pending one stops (single shot). The dock then hides, with an animation from the current geometry to the hidden rect, unless it is already hidden or a dialog is open; in those cases only the timer changes. |
| AutoHide.OnSettingsShown | dock.py:235-238 | The dialog is open and the dock is shown. A shown dock changes nothing else; a hidden one starts a show animation from its current geometry. The timer and the geometry are unchanged. |
| AutoHide.OnSettingsClosed | dock.py:243-244 | Clears the dialog flag and nothing else. |
| AutoHide.OnFrame | dock.py:162-164 | While the animation runs, a frame sets the geometry and nothing else. Otherwise nothing changes. |
| AutoHide.OnFinished | dock.py:162-164 | The animation stops, and a running one leaves the geometry at its end value. The flags, the timer and the recorded end values are unchanged, and without a running animation the geometry is too. |
| AutoHide.StepKeepsConsistent | dock.py:235-244 | Every event keeps "dialog open implies shown" and "running implies end values". |
| AutoHide.RunKeepsConsistent | dock.py:155-159 | Consistency holds after any sequence of events, starting from the initial state. |
| AutoHide.DialogBlocksHiding | dock.py:308-309 | While the settings dialog stays open, no sequence of events hides the dock. |
| AutoHide.NoHideWithoutLeave | dock.py:300-314 | From a shown dock with the timer stopped, no sequence of events without a pointer leave hides it or starts the timer. |
| AutoHide.LeaveThenEnterNeverHides | dock.py:300-306 | A leave followed by an enter never leads to hiding until the next leave (the debounce is cancelled). |
| AutoHide.RepeatedLeavesOnePendingFire | dock.py:305-306 | Two leaves have the same effect as one: a single pending fire, 500 ms out. |
| AutoHide.SustainedLeaveHides | dock.py:305-314 | From a shown dock with no dialog open, a leave followed by the timer firing and the slide finishing leaves the dock hidden at the hidden rect, with the timer stopped. |
| AutoHide.DialogCloseReenablesHiding | dock.py:235-244 | After the dialog opens, a leave and a timeout do not hide the dock. After the dialog closes, a fresh leave and timeout do. |
| AutoHide.ReentryMidHideReverses | dock.py:316-322 | Entering mid-hide starts the show from the frame reached, aimed at the visible rect for that frame's size. |
| AutoHide.HideThenShowRestores | dock.py:324-345 | A dock resting at its visible rect that fully hides and then fully shows again returns to exactly the same rect. |
| Dock.DockWindow.constructor | dock.py:150-174 | The settings are loaded, the offset is 10, and the saves are those of the load. The dock starts shown, with no dialog, the timer stopped and no animation. The initial size is bounded to the edge's limits. |
| Dock.DockWindow.LoadSettings | dock.py:198-215 | The fields equal `Load(file).settings`, the offset is 10, and exactly the load's save is appended. Nothing else changes. |
| Dock.DockWindow.SaveSettings | dock.py:228-233 | Appends the document to the save record. |
| Dock.DockWindow.ShowSettings | dock.py:235-241 | Follows `OnSettingsShown` up to the point where the modal dialog runs. At that point the dialog is open and the dock is shown. |
| Dock.DockWindow.OnSettingsDialogClosed | dock.py:243-244 | Follows `OnSettingsClosed`. |
| Dock.DockWindow.ApplySettings | dock.py:246-256 | The five fields equal the given document, and exactly that document is appended as saved. Reloading it gives the current settings. The geometry is the newly bounded size, placed by `place_dock`. The offset, the auto-hide flags, the timer and the animation are not modified. |
| Dock.DockWindow.UpdateSize | dock.py:258-275 | The geometry takes the bounded size of the layout's request (or of its current size when there is no layout). It is placed when the widget is visible and stays where it is otherwise. |
| Dock.DockWindow.PlaceDock | dock.py:289-298 | The geometry becomes `PlacedGeometry` of the old geometry. |
| Dock.DockWindow.EnterEvent | dock.py:300-303 | Follows `OnEnter`. |
| Dock.DockWindow.LeaveEvent | dock.py:305-306 | Follows `OnLeave`. |
| Dock.DockWindow.HideTimerTimeout | dock.py:157-159 | Follows `OnTimeout` for a pending timer. A stopped `QTimer` never fires, so a pending timer is required. |
| Dock.DockWindow.StartHideAnimation | dock.py:308-314 | Follows `StartHide`. |
| Dock.DockWindow.StartShowAnimation | dock.py:316-322 | Follows `StartShow`, and the invariant holds afterwards even when it is called with the dialog already marked open. |
| Dock.DockWindow.AnimationFrame | dock.py:162-164 | Follows `OnFrame`. |
| Dock.DockWindow.AnimationFinished | dock.py:162-164 | Follows `OnFinished`. |

## Left out

- Widget construction, layouts, stylesheets, window flags and the settings dialog's widgets (`dock.py:30-137`, `dock.py:166-197`). Only the dialog's value ranges appear, as `Settings.InDialogRanges`.
- Colour picking (`dock.py:112-124`). It writes `dock_color` directly on the dock, outside `apply_settings`; the model does not capture that write.
- Painting and its alpha `int(255 * (1 - transparency / 100))` (`dock.py:277-287`). It is floating point and affects rendering only.
- Time, the 300 ms duration and the out-cubic easing (`dock.py:162-164`). An animation is modelled by its end values. A frame may write any rect, and no interpolation is modelled. Qt's handling of `start()` on an animation that is already running is not modelled either: a new start simply records new end values.
- File I/O. A read failure and a parse failure are one case (`Unreadable`), and a write failure with its warning box (`dock.py:233`) is not modelled: every save is recorded as attempted.
- JSON value types. Parsed documents are assumed to hold values of the types the code uses, and Python's and Qt's integer widths (a too-large size raises in PyQt) are not modelled.
- The layout's `adjustSize` (`dock.py:268-271`). The size it asks for is an input. `isVisible()` and the widget's initial geometry are also inputs.
- The modal dialog loop (`dock.py:239-241`). `show_settings` returns only after `dialog.exec()` returns, by which time `finished` has already cleared the dialog flag. The model stops `ShowSettings` where `exec()` starts. The events delivered during the modal loop, `apply_settings` and the dialog's close are separate, later calls (`OnSettingsDialogClosed` for the close).
- Screen changes. The source reads `QApplication.primaryScreen().geometry()` on every call (`dock.py:290`, `dock.py:326`, `dock.py:337`). The model fixes the screen once as `screen`, so a screen that changes size or a different primary screen is not modelled.
- `SHOW_TRIGGER_DISTANCE` (`dock.py:28`), which is never used, and the `__main__` block (`dock.py:348-354`).
