/** Edge-relative placement of the dock on a screen whose origin is (0, 0):
    where it sits when shown, where it parks when hidden, where `place_dock`
    moves it, and the size limits that `update_size` derives from the edge. */
module Geometry {

  /** The edge names the dock stores. A settings file may hold any other
      string, and each operation below then takes its own fall-through branch. */
  const EDGE_TOP: string := "top"
  const EDGE_BOTTOM: string := "bottom"
  const EDGE_LEFT: string := "left"
  const EDGE_RIGHT: string := "right"

  /** Qt's largest widget extent (QWIDGETSIZE_MAX). */
  const WIDGET_SIZE_MAX: int := 16777215
  /** How much of a hidden dock stays on screen as a re-entry target. */
  const HIDDEN_SLIVER: int := 5
  /** Smallest thickness (across the edge) and length (along the edge). */
  const MIN_THICKNESS: int := 40
  const MIN_LENGTH: int := 120

  datatype Rect = Rect(x: int, y: int, width: int, height: int)
  datatype Size = Size(width: int, height: int)
  datatype Screen = Screen(width: int, height: int)

  predicate IsEdge(edge: string) {
    edge == EDGE_TOP || edge == EDGE_BOTTOM || edge == EDGE_LEFT || edge == EDGE_RIGHT
  }

  /** The edges along which the dock lies horizontally and slides vertically. */
  predicate IsHorizontal(edge: string) {
    edge == EDGE_TOP || edge == EDGE_BOTTOM
  }

  /** Python's `a // 2`: floor division. Dafny's `/` is Euclidean, which floors
      for a positive divisor, negative dividends included. */
  function Half(a: int): (q: int)
    ensures 2 * q <= a < 2 * q + 2
  {
    a / 2
  }

  /** A segment of length `len` starting at `pos` is centred in `[0, span)`:
      the trailing margin equals the leading one or exceeds it by one. */
  predicate Centered(pos: int, len: int, span: int) {
    0 <= (span - (pos + len)) - pos <= 1
  }

  /** Length of the overlap of the intervals `[lo1, hi1)` and `[lo2, hi2)`. */
  function Overlap(lo1: int, hi1: int, lo2: int, hi2: int): int {
    var lo := if lo1 < lo2 then lo2 else lo1;
    var hi := if hi1 < hi2 then hi1 else hi2;
    if hi < lo then 0 else hi - lo
  }

  /** `get_visible_geometry`: flush against the dock's edge at distance
      `offset`, centred on the other axis, size kept. An edge name that is
      none of the four falls through to the right-edge branch. */
  function VisibleGeometry(edge: string, offset: int, width: int, height: int, screen: Screen): (r: Rect)
    ensures r.width == width && r.height == height
    ensures edge == EDGE_TOP ==> r.y == offset && Centered(r.x, width, screen.width)
    ensures edge == EDGE_BOTTOM ==> r.y + height + offset == screen.height && Centered(r.x, width, screen.width)
    ensures edge == EDGE_LEFT ==> r.x == offset && Centered(r.y, height, screen.height)
    ensures !IsHorizontal(edge) && edge != EDGE_LEFT ==>
              r.x + width + offset == screen.width && Centered(r.y, height, screen.height)
  {
    if edge == EDGE_TOP then
      Rect(Half(screen.width - width), offset, width, height)
    else if edge == EDGE_BOTTOM then
      Rect(Half(screen.width - width), screen.height - height - offset, width, height)
    else if edge == EDGE_LEFT then
      Rect(offset, Half(screen.height - height), width, height)
    else
      Rect(screen.width - width - offset, Half(screen.height - height), width, height)
  }

  /** `get_hidden_geometry`: the current rect pushed past its edge so that
      exactly `HIDDEN_SLIVER` units remain on screen, with its size and its
      position along the edge kept. An edge name that is none of the four
      falls through to the bottom-edge branch. */
  function HiddenGeometry(edge: string, current: Rect, screen: Screen): (r: Rect)
    ensures r.width == current.width && r.height == current.height
    ensures edge == EDGE_LEFT ==> r.y == current.y && r.x + r.width == HIDDEN_SLIVER
    ensures edge == EDGE_RIGHT ==> r.y == current.y && screen.width - r.x == HIDDEN_SLIVER
    ensures edge == EDGE_TOP ==> r.x == current.x && r.y + r.height == HIDDEN_SLIVER
    ensures edge != EDGE_LEFT && edge != EDGE_RIGHT && edge != EDGE_TOP ==>
              r.x == current.x && screen.height - r.y == HIDDEN_SLIVER
  {
    if edge == EDGE_LEFT then
      Rect(-current.width + HIDDEN_SLIVER, current.y, current.width, current.height)
    else if edge == EDGE_RIGHT then
      Rect(screen.width - HIDDEN_SLIVER, current.y, current.width, current.height)
    else if edge == EDGE_TOP then
      Rect(current.x, -current.height + HIDDEN_SLIVER, current.width, current.height)
    else
      Rect(current.x, screen.height - HIDDEN_SLIVER, current.width, current.height)
  }

  /** `place_dock`: moves the dock, keeping its size, to the position its own
      branches compute; an edge name that is none of the four moves nothing.
      For the four edges the position is exactly that of the visible rect. */
  function PlacedGeometry(edge: string, offset: int, current: Rect, screen: Screen): (r: Rect)
    ensures r.width == current.width && r.height == current.height
    ensures IsEdge(edge) ==> r == VisibleGeometry(edge, offset, current.width, current.height, screen)
    ensures !IsEdge(edge) ==> r == current
  {
    var w, h := current.width, current.height;
    if edge == EDGE_TOP then
      Rect((screen.width - w) / 2, offset, w, h)
    else if edge == EDGE_BOTTOM then
      Rect((screen.width - w) / 2, screen.height - h - offset, w, h)
    else if edge == EDGE_LEFT then
      Rect(offset, (screen.height - h) / 2, w, h)
    else if edge == EDGE_RIGHT then
      Rect(screen.width - w - offset, (screen.height - h) / 2, w, h)
    else
      current
  }

  /** A shown dock that fits on the screen lies wholly inside it, `offset`
      units away from its own edge, for any edge name (an unknown one places
      it as the right edge does). */
  lemma VisibleInsideScreen(edge: string, offset: int, width: int, height: int, screen: Screen)
    requires 0 <= offset
    requires 0 <= width && width + offset <= screen.width
    requires 0 <= height && height + offset <= screen.height
    ensures var r := VisibleGeometry(edge, offset, width, height, screen);
            0 <= r.x && r.x + r.width <= screen.width && 0 <= r.y && r.y + r.height <= screen.height
  {
  }

  /** A hidden dock at least `HIDDEN_SLIVER` thick on a screen at least that
      large overlaps the screen by exactly `HIDDEN_SLIVER` across its edge and
      keeps its extent along the edge. */
  lemma HiddenLeavesSliver(edge: string, current: Rect, screen: Screen)
    requires HIDDEN_SLIVER <= current.width && HIDDEN_SLIVER <= current.height
    requires HIDDEN_SLIVER <= screen.width && HIDDEN_SLIVER <= screen.height
    ensures var r := HiddenGeometry(edge, current, screen);
            if edge == EDGE_LEFT || edge == EDGE_RIGHT then
              Overlap(r.x, r.x + r.width, 0, screen.width) == HIDDEN_SLIVER &&
              Overlap(r.y, r.y + r.height, 0, screen.height) == Overlap(current.y, current.y + current.height, 0, screen.height)
            else
              Overlap(r.y, r.y + r.height, 0, screen.height) == HIDDEN_SLIVER &&
              Overlap(r.x, r.x + r.width, 0, screen.width) == Overlap(current.x, current.x + current.width, 0, screen.width)
  {
  }

  /** The minimum and maximum size `update_size` imposes. */
  datatype Limits = Limits(minWidth: int, minHeight: int, maxWidth: int, maxHeight: int)

  /** The dock's thickness: the configured size, but never below `MIN_THICKNESS`. */
  function Thickness(size: int): (t: int)
    ensures t >= size && t >= MIN_THICKNESS && (t == size || t == MIN_THICKNESS)
  {
    if size < MIN_THICKNESS then MIN_THICKNESS else size
  }

  /** Qt's `setMinimumSize`/`setMaximumSize` cap an extent above
      `WIDGET_SIZE_MAX` to that maximum (with a warning). */
  function CapExtent(v: int): (r: int)
    ensures r <= WIDGET_SIZE_MAX
    ensures v <= WIDGET_SIZE_MAX ==> r == v
    ensures WIDGET_SIZE_MAX < v ==> r == WIDGET_SIZE_MAX
  {
    if WIDGET_SIZE_MAX < v then WIDGET_SIZE_MAX else v
  }

  /** `update_size`'s limits as Qt records them: across the edge the dock is
      exactly `Thickness(size)`, capped at Qt's maximum; along it, anything
      from `MIN_LENGTH` up to Qt's maximum. Every edge name other than top and
      bottom is treated like left and right. */
  function SizeLimits(edge: string, size: int): (l: Limits)
    ensures IsHorizontal(edge) ==>
              l.minHeight == l.maxHeight == CapExtent(Thickness(size)) &&
              l.minWidth == MIN_LENGTH && l.maxWidth == WIDGET_SIZE_MAX
    ensures !IsHorizontal(edge) ==>
              l.minWidth == l.maxWidth == CapExtent(Thickness(size)) &&
              l.minHeight == MIN_LENGTH && l.maxHeight == WIDGET_SIZE_MAX
  {
    var t := CapExtent(Thickness(size));
    if edge == EDGE_TOP || edge == EDGE_BOTTOM then
      Limits(MIN_LENGTH, t, WIDGET_SIZE_MAX, t)
    else
      Limits(t, MIN_LENGTH, t, WIDGET_SIZE_MAX)
  }

  /** Qt's `qBound(lo, v, hi)`, which resizing a widget applies to each extent. */
  function Bound(lo: int, v: int, hi: int): (r: int)
    ensures lo <= r
    ensures lo <= hi ==> r <= hi
    ensures lo <= v <= hi ==> r == v
    ensures v < lo ==> r == lo
    ensures lo <= hi < v ==> r == hi
  {
    var capped := if hi < v then hi else v;
    if capped < lo then lo else capped
  }

  /** The size a widget with limits `l` takes when asked for `preferred`. */
  function BoundedSize(l: Limits, preferred: Size): (s: Size)
    ensures l.minWidth <= l.maxWidth ==> l.minWidth <= s.width <= l.maxWidth
    ensures l.minHeight <= l.maxHeight ==> l.minHeight <= s.height <= l.maxHeight
    ensures l.minWidth <= preferred.width <= l.maxWidth ==> s.width == preferred.width
    ensures l.minHeight <= preferred.height <= l.maxHeight ==> s.height == preferred.height
    ensures preferred.width < l.minWidth ==> s.width == l.minWidth
    ensures l.minWidth <= l.maxWidth < preferred.width ==> s.width == l.maxWidth
    ensures preferred.height < l.minHeight ==> s.height == l.minHeight
    ensures l.minHeight <= l.maxHeight < preferred.height ==> s.height == l.maxHeight
  {
    Size(Bound(l.minWidth, preferred.width, l.maxWidth), Bound(l.minHeight, preferred.height, l.maxHeight))
  }

  /** Whatever size is asked for, the dock ends up exactly `Thickness(size)`
      thick, capped at Qt's maximum, and between `MIN_LENGTH` and Qt's
      maximum long; a configured size within Qt's maximum is not capped. */
  lemma BoundedSizeFitsEdge(edge: string, size: int, preferred: Size)
    ensures var s := BoundedSize(SizeLimits(edge, size), preferred);
            if IsHorizontal(edge) then
              s.height == CapExtent(Thickness(size)) && MIN_LENGTH <= s.width <= WIDGET_SIZE_MAX
            else
              s.width == CapExtent(Thickness(size)) && MIN_LENGTH <= s.height <= WIDGET_SIZE_MAX
    ensures size <= WIDGET_SIZE_MAX ==>
              var s := BoundedSize(SizeLimits(edge, size), preferred);
              (if IsHorizontal(edge) then s.height else s.width) == Thickness(size)
  {
  }
}
