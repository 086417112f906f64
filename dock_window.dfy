/** The `DockWindow` widget's state and the methods that change it. Each
    auto-hide method is tied to its transition in `AutoHide`, each geometry
    method to its rect in `Geometry`, and loading to `Settings.Load`. */
module Dock {
  import opened Wrappers
  import opened Geometry
  import opened Settings
  import opened AutoHide

  /** The distance from the screen edge, fixed at every load. */
  const DOCK_OFFSET: int := 10

  class DockWindow {
    var edge: string
    var transparency: int
    var dockColor: string
    var size: int
    var dockHeight: int
    var offset: int

    var isHidden: bool
    var settingsDialogOpen: bool
    var hideTimer: Timer
    /** The widget's geometry as Qt reports it. */
    var geometry: Rect
    var animation: Option<Motion>
    var animationRunning: bool

    /** The primary screen (origin (0, 0)). */
    const screen: Screen
    /** Every document handed to `save_settings`, oldest first. */
    var savedDocuments: seq<SettingsDoc>

    function AutoHideState(): Controller
      reads this
    {
      Controller(isHidden, settingsDialogOpen, hideTimer, geometry, animation, animationRunning)
    }

    function CurrentPlacement(): Placement
      reads this
    {
      Placement(edge, offset, screen)
    }

    /** The in-memory settings, in the shape of the saved document. */
    function CurrentSettings(): SettingsDoc
      reads this
    {
      SettingsDoc(edge, transparency, dockColor, Size(size, dockHeight))
    }

    ghost predicate Valid()
      reads this
    {
      Consistent(AutoHideState())
    }

    /** `__init__`: loads the settings, starts shown with no dialog, timer or
        animation, and bounds the initial size. The layout does not exist yet,
        so nothing is adjusted, and the widget is not visible, so nothing is
        placed. `initial` is the geometry Qt gives a new widget. */
    constructor (file: SettingsFile, screen: Screen, initial: Rect)
      ensures Valid()
      ensures this.screen == screen
      ensures CurrentSettings() == Load(file).settings && offset == DOCK_OFFSET
      ensures savedDocuments == (match Load(file).saved case Some(d) => [d] case None => [])
      ensures AutoHideState() == Initial(geometry)
      ensures geometry.x == initial.x && geometry.y == initial.y
      ensures Size(geometry.width, geometry.height) ==
              BoundedSize(SizeLimits(edge, size), Size(initial.width, initial.height))
    {
      this.screen := screen;
      edge, transparency, dockColor, size, dockHeight, offset := "", 0, "", 0, 0, 0;
      savedDocuments := [];
      isHidden, settingsDialogOpen, hideTimer := false, false, Idle;
      geometry, animation, animationRunning := initial, None, false;
      new;
      LoadSettings(file);
      UpdateSize(None, false);
    }

    /** `load_settings`: takes the loaded document's five fields, saves the
        defaults when the file was missing or unreadable, and resets the
        offset. */
    method LoadSettings(file: SettingsFile)
      modifies this`edge, this`transparency, this`dockColor, this`size, this`dockHeight, this`offset, this`savedDocuments
      ensures CurrentSettings() == Load(file).settings
      ensures offset == DOCK_OFFSET
      ensures savedDocuments == old(savedDocuments) + (match Load(file).saved case Some(d) => [d] case None => [])
    {
      var settings: SettingsDoc;
      match file {
        case Parsed(doc) =>
          settings := doc;
        case _ =>
          settings := DefaultSettings();
          SaveSettings(settings);
      }
      edge := settings.dockPosition;
      transparency := settings.transparency;
      dockColor := settings.dockColor;
      size := settings.dockSize.width;
      dockHeight := settings.dockSize.height;
      offset := DOCK_OFFSET;
    }

    /** `save_settings`: records the document that would be written. */
    method SaveSettings(doc: SettingsDoc)
      modifies this`savedDocuments
      ensures savedDocuments == old(savedDocuments) + [doc]
    {
      savedDocuments := savedDocuments + [doc];
    }

    /** `show_settings`: the dialog counts as open from here until it is
        closed, and a hidden dock is shown, so no hide can start meanwhile. */
    method ShowSettings()
      requires Valid()
      modifies this`settingsDialogOpen, this`isHidden, this`animation, this`animationRunning
      ensures Valid()
      ensures AutoHideState() == OnSettingsShown(old(AutoHideState()), CurrentPlacement())
      ensures settingsDialogOpen && !isHidden
    {
      settingsDialogOpen := true;
      if isHidden {
        StartShowAnimation();
      }
    }

    /** `_on_settings_dialog_closed`. */
    method OnSettingsDialogClosed()
      requires Valid()
      modifies this`settingsDialogOpen
      ensures Valid()
      ensures AutoHideState() == OnSettingsClosed(old(AutoHideState()))
    {
      settingsDialogOpen := false;
    }

    /** `apply_settings`: copies the document's five fields, bounds the size,
        places the dock and saves exactly the document given; the offset, the
        auto-hide flags, the timer and the animation are untouched.
        `preferred` is the size the layout asks for when adjusted, and
        `isVisible` whether the widget is shown. */
    method ApplySettings(doc: SettingsDoc, preferred: Size, isVisible: bool)
      modifies this`edge, this`transparency, this`dockColor, this`size, this`dockHeight, this`geometry, this`savedDocuments
      ensures CurrentSettings() == doc
      ensures savedDocuments == old(savedDocuments) + [doc]
      ensures Load(Parsed(savedDocuments[|savedDocuments| - 1])).settings == CurrentSettings()
      ensures var s := BoundedSize(SizeLimits(doc.dockPosition, doc.dockSize.width), preferred);
              geometry == PlacedGeometry(edge, offset, Rect(old(geometry).x, old(geometry).y, s.width, s.height), screen)
    {
      edge := doc.dockPosition;
      transparency := doc.transparency;
      dockColor := doc.dockColor;
      size := doc.dockSize.width;
      dockHeight := doc.dockSize.height;
      UpdateSize(Some(preferred), isVisible);
      PlaceDock();
      SaveSettings(doc);
    }

    /** `update_size`: bounds the widget to the edge's limits, at the size the
        layout asks for when there is one (`adjusted`) and at its current size
        otherwise, then places it if it is visible. */
    method UpdateSize(adjusted: Option<Size>, isVisible: bool)
      modifies this`geometry
      ensures var s := BoundedSize(SizeLimits(edge, size), adjusted.GetOr(Size(old(geometry).width, old(geometry).height)));
              var sized := Rect(old(geometry).x, old(geometry).y, s.width, s.height);
              geometry == if isVisible then PlacedGeometry(edge, offset, sized, screen) else sized
    {
      var limits := SizeLimits(edge, size);
      var target := adjusted.GetOr(Size(geometry.width, geometry.height));
      var s := BoundedSize(limits, target);
      geometry := Rect(geometry.x, geometry.y, s.width, s.height);
      if isVisible {
        PlaceDock();
      }
    }

    /** `place_dock`. */
    method PlaceDock()
      modifies this`geometry
      ensures geometry == PlacedGeometry(edge, offset, old(geometry), screen)
    {
      var w, h := geometry.width, geometry.height;
      if edge == EDGE_TOP {
        geometry := Rect((screen.width - w) / 2, offset, w, h);
      } else if edge == EDGE_BOTTOM {
        geometry := Rect((screen.width - w) / 2, screen.height - h - offset, w, h);
      } else if edge == EDGE_LEFT {
        geometry := Rect(offset, (screen.height - h) / 2, w, h);
      } else if edge == EDGE_RIGHT {
        geometry := Rect(screen.width - w - offset, (screen.height - h) / 2, w, h);
      }
    }

    /** `enterEvent`. */
    method EnterEvent()
      requires Valid()
      modifies this`hideTimer, this`isHidden, this`animation, this`animationRunning
      ensures Valid()
      ensures AutoHideState() == OnEnter(old(AutoHideState()), CurrentPlacement())
    {
      hideTimer := Idle;
      if isHidden {
        StartShowAnimation();
      }
    }

    /** `leaveEvent`. */
    method LeaveEvent()
      requires Valid()
      modifies this`hideTimer
      ensures Valid()
      ensures AutoHideState() == OnLeave(old(AutoHideState()))
    {
      hideTimer := Pending(HIDE_DELAY_MS);
    }

    /** The single-shot `hide_timer` firing: it stops, then its `timeout`
        signal runs `start_hide_animation`. */
    method HideTimerTimeout()
      requires Valid()
      requires hideTimer.Pending?
      modifies this`hideTimer, this`isHidden, this`animation, this`animationRunning
      ensures Valid()
      ensures AutoHideState() == OnTimeout(old(AutoHideState()), CurrentPlacement())
    {
      hideTimer := Idle;
      StartHideAnimation();
    }

    /** `start_hide_animation`. */
    method StartHideAnimation()
      requires Valid()
      modifies this`isHidden, this`animation, this`animationRunning
      ensures Valid()
      ensures AutoHideState() == StartHide(old(AutoHideState()), CurrentPlacement())
    {
      if !isHidden && !settingsDialogOpen {
        isHidden := true;
        var target := HiddenGeometry(edge, geometry, screen);
        animation := Some(Motion(geometry, target));
        animationRunning := true;
      }
    }

    /** `start_show_animation`. `show_settings` calls it after marking the
        dialog open, so it asks only that a running animation has end values. */
    method StartShowAnimation()
      requires animationRunning ==> animation.Some?
      modifies this`isHidden, this`animation, this`animationRunning
      ensures Valid()
      ensures AutoHideState() == StartShow(old(AutoHideState()), CurrentPlacement())
    {
      if isHidden {
        isHidden := false;
        var target := VisibleGeometry(edge, offset, geometry.width, geometry.height, screen);
        animation := Some(Motion(geometry, target));
        animationRunning := true;
      }
    }

    /** The running animation writing an intermediate geometry. */
    method AnimationFrame(frame: Rect)
      requires Valid()
      modifies this`geometry
      ensures Valid()
      ensures AutoHideState() == OnFrame(old(AutoHideState()), frame)
    {
      if animationRunning {
        geometry := frame;
      }
    }

    /** The running animation reaching its end value. */
    method AnimationFinished()
      requires Valid()
      modifies this`geometry, this`animationRunning
      ensures Valid()
      ensures AutoHideState() == OnFinished(old(AutoHideState()))
    {
      if animationRunning && animation.Some? {
        geometry := animation.value.endValue;
      }
      animationRunning := false;
    }
  }
}
