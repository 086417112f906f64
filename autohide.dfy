/** The auto-hide controller of the dock as pure transitions over its flags,
    its single-shot hide timer and its geometry animation. `is_hidden` flips
    when an animation starts; the animation itself is its two end values plus
    whether Qt is still running it. */
module AutoHide {
  import opened Wrappers
  import opened Geometry

  /** The hide timer's delay after the pointer leaves, in milliseconds. */
  const HIDE_DELAY_MS: int := 500

  /** The single-shot `hide_timer`: stopped, or due to fire after `delay`. */
  datatype Timer = Idle | Pending(delay: int)

  /** The start and end values last given to the geometry animation. */
  datatype Motion = Motion(startValue: Rect, endValue: Rect)

  /** What the animation targets are computed from: the edge, the offset and
      the screen. */
  datatype Placement = Placement(edge: string, offset: int, screen: Screen)

  datatype Controller = Controller(
    isHidden: bool,
    dialogOpen: bool,
    hideTimer: Timer,
    geometry: Rect,
    animation: Option<Motion>,
    running: bool)

  /** The events the dock reacts to: the pointer entering or leaving it, the
      hide timer firing, the settings dialog opening and closing, and the
      running animation writing a frame or finishing. */
  datatype Event =
    | PointerEnter
    | PointerLeave
    | HideTimeout
    | SettingsShown
    | SettingsClosed
    | AnimationFrame(frame: Rect)
    | AnimationFinished

  /** A freshly constructed dock at `geometry`. */
  function Initial(geometry: Rect): Controller {
    Controller(false, false, Idle, geometry, None, false)
  }

  /** Holds of every reachable controller: an open dialog keeps the dock
      shown, and a running animation has end values. */
  predicate Consistent(c: Controller) {
    && (c.dialogOpen ==> !c.isHidden)
    && (c.running ==> c.animation.Some?)
  }

  function HiddenTarget(c: Controller, p: Placement): Rect {
    HiddenGeometry(p.edge, c.geometry, p.screen)
  }

  function VisibleTarget(c: Controller, p: Placement): Rect {
    VisibleGeometry(p.edge, p.offset, c.geometry.width, c.geometry.height, p.screen)
  }

  /** `start_hide_animation`: unless already hidden or a settings dialog is
      open, marks the dock hidden and slides it from where it is to the hidden
      rect; otherwise changes nothing. */
  function StartHide(c: Controller, p: Placement): (r: Controller)
    ensures r.dialogOpen == c.dialogOpen && r.hideTimer == c.hideTimer && r.geometry == c.geometry
    ensures r.isHidden <==> c.isHidden || !c.dialogOpen
    ensures c.isHidden || c.dialogOpen ==> r == c
    ensures !c.isHidden && !c.dialogOpen ==>
              r.running && r.animation == Some(Motion(c.geometry, HiddenTarget(c, p)))
  {
    if !c.isHidden && !c.dialogOpen then
      c.(isHidden := true, animation := Some(Motion(c.geometry, HiddenTarget(c, p))), running := true)
    else
      c
  }

  /** `start_show_animation`: when hidden, marks the dock shown and slides it
      from wherever it is, mid-hide included, to the visible rect; otherwise
      changes nothing. */
  function StartShow(c: Controller, p: Placement): (r: Controller)
    ensures r.dialogOpen == c.dialogOpen && r.hideTimer == c.hideTimer && r.geometry == c.geometry
    ensures !r.isHidden
    ensures !c.isHidden ==> r == c
    ensures c.isHidden ==> r.running && r.animation == Some(Motion(c.geometry, VisibleTarget(c, p)))
  {
    if c.isHidden then
      c.(isHidden := false, animation := Some(Motion(c.geometry, VisibleTarget(c, p))), running := true)
    else
      c
  }

  /** `enterEvent`: always stops the hide timer, and starts a show only when
      the dock is hidden. */
  function OnEnter(c: Controller, p: Placement): (r: Controller)
    ensures r.hideTimer == Idle && !r.isHidden && r.dialogOpen == c.dialogOpen
    ensures !c.isHidden ==> r == c.(hideTimer := Idle)
    ensures c.isHidden ==> r.running && r.geometry == c.geometry &&
                           r.animation == Some(Motion(c.geometry, VisibleTarget(c, p)))
  {
    StartShow(c.(hideTimer := Idle), p)
  }

  /** `leaveEvent`: (re)starts the single-shot hide timer with its delay;
      nothing else changes. */
  function OnLeave(c: Controller): (r: Controller)
    ensures r.hideTimer == Pending(HIDE_DELAY_MS)
    ensures r.(hideTimer := c.hideTimer) == c
  {
    c.(hideTimer := Pending(HIDE_DELAY_MS))
  }

  /** The hide timer firing: a stopped timer never fires; a pending one goes
      idle, being single-shot, and calls `start_hide_animation`. */
  function OnTimeout(c: Controller, p: Placement): (r: Controller)
    ensures !c.hideTimer.Pending? ==> r == c
    ensures c.hideTimer.Pending? ==>
              && r.hideTimer == Idle && r.dialogOpen == c.dialogOpen && r.geometry == c.geometry
              && (r.isHidden <==> c.isHidden || !c.dialogOpen)
              && (c.isHidden || c.dialogOpen ==> r == c.(hideTimer := Idle))
              && (!c.isHidden && !c.dialogOpen ==>
                    r.running && r.animation == Some(Motion(c.geometry, HiddenTarget(c, p))))
  {
    if c.hideTimer.Pending? then StartHide(c.(hideTimer := Idle), p) else c
  }

  /** `show_settings`: marks the dialog open and shows a hidden dock. */
  function OnSettingsShown(c: Controller, p: Placement): (r: Controller)
    ensures r.dialogOpen && !r.isHidden && r.hideTimer == c.hideTimer && r.geometry == c.geometry
    ensures !c.isHidden ==> r == c.(dialogOpen := true)
    ensures c.isHidden ==> r.running && r.animation == Some(Motion(c.geometry, VisibleTarget(c, p)))
  {
    StartShow(c.(dialogOpen := true), p)
  }

  /** `_on_settings_dialog_closed`: clears the dialog flag, nothing else. */
  function OnSettingsClosed(c: Controller): (r: Controller)
    ensures !r.dialogOpen && r.(dialogOpen := c.dialogOpen) == c
  {
    c.(dialogOpen := false)
  }

  /** A running animation moves the dock to an intermediate frame (the eased
      interpolation itself is not modelled, so any rect may be written). */
  function OnFrame(c: Controller, frame: Rect): (r: Controller)
    ensures c.running ==> r == c.(geometry := frame)
    ensures !c.running ==> r == c
  {
    if c.running then c.(geometry := frame) else c
  }

  /** A running animation finishing leaves the dock at its end value. */
  function OnFinished(c: Controller): (r: Controller)
    ensures !r.running && r.isHidden == c.isHidden && r.dialogOpen == c.dialogOpen && r.hideTimer == c.hideTimer
    ensures r.animation == c.animation
    ensures !(c.running && c.animation.Some?) ==> r.geometry == c.geometry
    ensures c.running && c.animation.Some? ==> r.geometry == c.animation.value.endValue
    ensures !c.running ==> r == c
  {
    match c.animation
    case Some(m) => if c.running then c.(geometry := m.endValue, running := false) else c
    case None => c.(running := false)
  }

  function Step(c: Controller, p: Placement, e: Event): Controller {
    match e
    case PointerEnter => OnEnter(c, p)
    case PointerLeave => OnLeave(c)
    case HideTimeout => OnTimeout(c, p)
    case SettingsShown => OnSettingsShown(c, p)
    case SettingsClosed => OnSettingsClosed(c)
    case AnimationFrame(frame) => OnFrame(c, frame)
    case AnimationFinished => OnFinished(c)
  }

  /** The controller after the events `evs`, in order, with a fixed placement. */
  function Run(c: Controller, p: Placement, evs: seq<Event>): Controller
    decreases |evs|
  {
    if evs == [] then c else Run(Step(c, p, evs[0]), p, evs[1..])
  }

  lemma RunCons(c: Controller, p: Placement, e: Event, evs: seq<Event>)
    ensures Run(c, p, [e] + evs) == Run(Step(c, p, e), p, evs)
  {
  }

  /** Every event keeps a controller consistent. */
  lemma StepKeepsConsistent(c: Controller, p: Placement, e: Event)
    requires Consistent(c)
    ensures Consistent(Step(c, p, e))
  {
  }

  /** Consistency holds after any sequence of events, from the initial state on. */
  lemma {:induction false} RunKeepsConsistent(c: Controller, p: Placement, evs: seq<Event>)
    requires Consistent(c)
    ensures Consistent(Run(c, p, evs))
    decreases |evs|
  {
    if evs != [] {
      StepKeepsConsistent(c, p, evs[0]);
      RunKeepsConsistent(Step(c, p, evs[0]), p, evs[1..]);
    }
  }

  /** While the settings dialog stays open the dock cannot hide, whatever
      pointer, timer and animation events arrive. */
  lemma {:induction false} DialogBlocksHiding(c: Controller, p: Placement, evs: seq<Event>)
    requires Consistent(c) && c.dialogOpen
    requires SettingsClosed !in evs
    ensures Run(c, p, evs).dialogOpen && !Run(c, p, evs).isHidden
    decreases |evs|
  {
    if evs != [] {
      assert evs[0] != SettingsClosed;
      assert SettingsClosed !in evs[1..];
      StepKeepsConsistent(c, p, evs[0]);
      DialogBlocksHiding(Step(c, p, evs[0]), p, evs[1..]);
    }
  }

  /** With the timer stopped and the dock shown, no sequence of events without
      a pointer leave can hide it: the dock hides only after a leave. */
  lemma {:induction false} NoHideWithoutLeave(c: Controller, p: Placement, evs: seq<Event>)
    requires !c.isHidden && c.hideTimer == Idle
    requires PointerLeave !in evs
    ensures !Run(c, p, evs).isHidden && Run(c, p, evs).hideTimer == Idle
    decreases |evs|
  {
    if evs != [] {
      assert evs[0] != PointerLeave;
      assert PointerLeave !in evs[1..];
      NoHideWithoutLeave(Step(c, p, evs[0]), p, evs[1..]);
    }
  }

  /** Debouncing: a leave followed by an enter cancels the pending hide, so the
      dock stays shown until the pointer leaves again. */
  lemma LeaveThenEnterNeverHides(c: Controller, p: Placement, evs: seq<Event>)
    requires PointerLeave !in evs
    ensures !Run(c, p, [PointerLeave, PointerEnter] + evs).isHidden
  {
    RunCons(c, p, PointerLeave, [PointerEnter] + evs);
    assert [PointerLeave, PointerEnter] + evs == [PointerLeave] + ([PointerEnter] + evs);
    RunCons(OnLeave(c), p, PointerEnter, evs);
    NoHideWithoutLeave(OnEnter(OnLeave(c), p), p, evs);
  }

  /** Repeated leaves leave one pending fire, 500 ms after the last of them. */
  lemma RepeatedLeavesOnePendingFire(c: Controller, p: Placement)
    ensures Run(c, p, [PointerLeave, PointerLeave]) == Run(c, p, [PointerLeave])
    ensures Run(c, p, [PointerLeave]).hideTimer == Pending(HIDE_DELAY_MS)
  {
  }

  /** A shown dock with no dialog open, left and then left alone until the
      timer fires and the slide finishes, is hidden at the hidden rect. */
  lemma SustainedLeaveHides(c: Controller, p: Placement)
    requires !c.isHidden && !c.dialogOpen
    ensures var r := Run(c, p, [PointerLeave, HideTimeout, AnimationFinished]);
            r.isHidden && !r.running && r.hideTimer == Idle && r.geometry == HiddenTarget(c, p)
  {
  }

  /** An open dialog swallows the timer; once it is closed, a fresh leave and
      timeout do hide the dock. */
  lemma DialogCloseReenablesHiding(c: Controller, p: Placement)
    ensures !Run(c, p, [SettingsShown, PointerLeave, HideTimeout]).isHidden
    ensures Run(c, p, [SettingsShown, PointerLeave, HideTimeout, SettingsClosed, PointerLeave, HideTimeout]).isHidden
  {
  }

  /** Re-entering mid-hide reverses the slide from the frame reached, not from
      the visible rect, and aims at the visible rect for that frame's size. */
  lemma ReentryMidHideReverses(c: Controller, p: Placement, frame: Rect)
    requires !c.isHidden && !c.dialogOpen
    ensures var r := Run(c, p, [PointerLeave, HideTimeout, AnimationFrame(frame), PointerEnter]);
            !r.isHidden && r.running &&
            r.animation == Some(Motion(frame, VisibleGeometry(p.edge, p.offset, frame.width, frame.height, p.screen)))
  {
    var c1 := OnLeave(c);
    var c2 := OnTimeout(c1, p);
    var c3 := OnFrame(c2, frame);
    RunCons(c, p, PointerLeave, [HideTimeout, AnimationFrame(frame), PointerEnter]);
    RunCons(c1, p, HideTimeout, [AnimationFrame(frame), PointerEnter]);
    RunCons(c2, p, AnimationFrame(frame), [PointerEnter]);
    RunCons(c3, p, PointerEnter, []);
  }

  /** A dock resting at its visible rect that hides completely and is then
      re-entered returns exactly to where it was: hiding keeps the size the
      visible rect is computed from. */
  lemma HideThenShowRestores(c: Controller, p: Placement)
    requires !c.isHidden && !c.dialogOpen && c.geometry == VisibleTarget(c, p)
    ensures var r := Run(c, p, [PointerLeave, HideTimeout, AnimationFinished, PointerEnter, AnimationFinished]);
            !r.isHidden && !r.running && r.geometry == c.geometry
  {
  }
}
