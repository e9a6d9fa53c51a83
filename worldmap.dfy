/**
 * The map view's pan/zoom state machine, its hotspot table, its marker list
 * and its overview rectangle. The transitions are stated once as a pure
 * `Step` over `ViewState`; the class `MapView` holds the same state in
 * mutable fields and each of its handlers is proved to perform that step.
 * Container and image sizes and pointer coordinates, which the source reads
 * from the DOM, are parameters.
 */
module WorldMap {
  import opened Optional
  import opened Sequences
  import opened Career

  datatype Point = Point(x: real, y: real) {
    function Plus(d: Point): Point { Point(x + d.x, y + d.y) }
    function Minus(d: Point): Point { Point(x - d.x, y - d.y) }
  }

  /**
   * A width and height in pixels, as `getBoundingClientRect` reports them.
   * For the image this is the rectangle with the current transform applied,
   * so the caller's measurement already reflects the prior scale.
   */
  datatype Size = Size(width: real, height: real)

  /** A marker position as percentages of the rendered image's width and height. */
  datatype Hotspot = Hotspot(x: real, y: real)

  /** The fixed table from entry id to its place on the map image. */
  const Hotspots: map<string, Hotspot> := map[
    "prgx-director" := Hotspot(75.0, 15.0),
    "amcs-director" := Hotspot(70.0, 20.0),
    "redhat-senior-principal" := Hotspot(65.0, 30.0),
    "salesforce-global-ops" := Hotspot(60.0, 35.0),
    "salesforce-campaigns" := Hotspot(65.0, 40.0),
    "getsatisfaction-director" := Hotspot(40.0, 50.0),
    "crowdfactory-senior-manager" := Hotspot(35.0, 55.0),
    "embarcadero-manager" := Hotspot(30.0, 60.0),
    "salemglobal-senior-manager" := Hotspot(25.0, 65.0),
    "botm-analyst" := Hotspot(20.0, 75.0),
    "sp-lms-strategist" := Hotspot(25.0, 80.0),
    "goldman-analyst" := Hotspot(30.0, 85.0)
  ]

  /** Every hotspot lies on the image. */
  lemma HotspotsWithinImage()
    ensures forall id :: id in Hotspots ==>
      0.0 <= Hotspots[id].x <= 100.0 && 0.0 <= Hotspots[id].y <= 100.0
  {
  }

  // ---------------------------------------------------------------- scale

  const MinScale: real := 0.5
  const MaxScale: real := 4.0

  predicate ScaleInRange(s: real) {
    MinScale <= s <= MaxScale
  }

  /** The wheel handler: 0.9 for `deltaY > 0` (scrolling down), otherwise 1.1, then clamped to [0.5, 4]. */
  function WheelScale(prev: real, deltaY: real): (r: real)
    ensures ScaleInRange(r)
    ensures ScaleInRange(prev) && deltaY > 0.0 ==> r <= prev
    ensures ScaleInRange(prev) && deltaY <= 0.0 ==> prev <= r
    ensures MinScale < prev * (if deltaY > 0.0 then 0.9 else 1.1) < MaxScale ==>
      r == prev * (if deltaY > 0.0 then 0.9 else 1.1)
    ensures prev * (if deltaY > 0.0 then 0.9 else 1.1) <= MinScale ==> r == MinScale
    ensures prev * (if deltaY > 0.0 then 0.9 else 1.1) >= MaxScale ==> r == MaxScale
  {
    var delta := if deltaY > 0.0 then 0.9 else 1.1;
    var raised := if prev * delta > MinScale then prev * delta else MinScale;
    if raised < MaxScale then raised else MaxScale
  }

  /** The zoom-in button: times 1.2, capped at 4 from above only. */
  function ZoomInScale(prev: real): (r: real)
    ensures r <= MaxScale
    ensures prev * 1.2 < MaxScale ==> r == prev * 1.2
    ensures prev * 1.2 >= MaxScale ==> r == MaxScale
    ensures ScaleInRange(prev) ==> ScaleInRange(r) && prev <= r
  {
    if prev * 1.2 < MaxScale then prev * 1.2 else MaxScale
  }

  /** The zoom-out button: times 0.8, held at 0.5 from below only. */
  function ZoomOutScale(prev: real): (r: real)
    ensures MinScale <= r
    ensures prev * 0.8 > MinScale ==> r == prev * 0.8
    ensures prev * 0.8 <= MinScale ==> r == MinScale
    ensures ScaleInRange(prev) ==> ScaleInRange(r) && r <= prev
  {
    if prev * 0.8 > MinScale then prev * 0.8 else MinScale
  }

  /** Width and height, in percent of the overview box, of the rectangle showing the visible fraction. */
  function OverviewPercent(scale: real): (pct: real)
    requires ScaleInRange(scale)
    ensures pct * scale == 100.0
    ensures 25.0 <= pct <= 200.0
  {
    100.0 / scale
  }

  // ---------------------------------------------------------------- transitions

  datatype ViewState = ViewState(scale: real, position: Point, dragging: bool, dragStart: Point)

  /** The state a map view starts in: scale 1, no offset, not dragging. */
  const Initial: ViewState := ViewState(1.0, Point(0.0, 0.0), false, Point(0.0, 0.0))

  /** What the view reacts to. `MouseUp` stands for both mouse-up and mouse-leave, which share one handler. */
  datatype Event =
    | MouseDown(pointer: Point)
    | MouseMove(pointer: Point)
    | MouseUp
    | Wheel(deltaY: real)
    | ZoomIn
    | ZoomOut
    | Reset
    | FocusChanged(focused: Option<Attraction>, container: Size, image: Size)

  /** The offset that puts the hotspot's pixel position, scaled by 2, at the container's centre. */
  function Recenter(h: Hotspot, container: Size, image: Size): (offset: Point)
    ensures image.width != 0.0 ==> h.x == (container.width / 2.0 - offset.x) * 50.0 / image.width
    ensures image.height != 0.0 ==> h.y == (container.height / 2.0 - offset.y) * 50.0 / image.height
  {
    var target := Point(h.x / 100.0 * image.width, h.y / 100.0 * image.height);
    Point(container.width / 2.0 - target.x * 2.0, container.height / 2.0 - target.y * 2.0)
  }

  /** The focus effect: nothing without a focused entry or a hotspot for it; otherwise scale 2 and recentre. */
  function Focus(s: ViewState, focused: Option<Attraction>, container: Size, image: Size): (r: ViewState)
    ensures r.dragging == s.dragging && r.dragStart == s.dragStart
    ensures r == s || (r.scale == 2.0 && focused.Some? && focused.value.id in Hotspots)
  {
    match focused
    case None => s
    case Some(a) =>
      if a.id in Hotspots then s.(scale := 2.0, position := Recenter(Hotspots[a.id], container, image))
      else s
  }

  /** One transition of the view; `small` is the minimap flag. */
  function Step(small: bool, s: ViewState, e: Event): (r: ViewState)
    ensures ScaleInRange(s.scale) ==> ScaleInRange(r.scale)
    ensures small && !s.dragging ==> !r.dragging
  {
    match e
    case MouseDown(p) => if small then s else s.(dragging := true, dragStart := p.Minus(s.position))
    case MouseMove(p) => if !s.dragging then s else s.(position := p.Minus(s.dragStart))
    case MouseUp => s.(dragging := false)
    case Wheel(deltaY) => if small then s else s.(scale := WheelScale(s.scale, deltaY))
    case ZoomIn => s.(scale := ZoomInScale(s.scale))
    case ZoomOut => s.(scale := ZoomOutScale(s.scale))
    case Reset => s.(scale := 1.0, position := Point(0.0, 0.0))
    case FocusChanged(focused, container, image) => Focus(s, focused, container, image)
  }

  /** The state after the events in order. */
  function Run(small: bool, s: ViewState, events: seq<Event>): ViewState
    decreases |events|
  {
    if events == [] then s else Run(small, Step(small, s, events[0]), events[1..])
  }

  /** No sequence of events takes the scale out of [0.5, 4]. */
  lemma {:induction false} RunKeepsScaleInRange(small: bool, s: ViewState, events: seq<Event>)
    requires ScaleInRange(s.scale)
    ensures ScaleInRange(Run(small, s, events).scale)
    decreases |events|
  {
    if events != [] {
      RunKeepsScaleInRange(small, Step(small, s, events[0]), events[1..]);
    }
  }

  /** From the initial state, the scale stays in [0.5, 4] whatever happens. */
  lemma ScaleAlwaysInRange(small: bool, events: seq<Event>)
    ensures ScaleInRange(Run(small, Initial, events).scale)
  {
    RunKeepsScaleInRange(small, Initial, events);
  }

  /** The minimap never starts a drag, whatever happens to it. */
  lemma {:induction false} SmallNeverDrags(s: ViewState, events: seq<Event>)
    requires !s.dragging
    ensures !Run(true, s, events).dragging
    decreases |events|
  {
    if events != [] {
      SmallNeverDrags(Step(true, s, events[0]), events[1..]);
    }
  }

  /** In the minimap, mouse-down and wheel change nothing. */
  lemma SmallIgnoresMouseDownAndWheel(s: ViewState, p: Point, deltaY: real)
    ensures Step(true, s, MouseDown(p)) == s
    ensures Step(true, s, Wheel(deltaY)) == s
  {
  }

  /** Pressing at `p` and moving to `p + d` shifts the offset by exactly `d`; with `d = 0` it stays put. */
  lemma DragShiftsByPointerDelta(s: ViewState, p: Point, d: Point)
    ensures Step(false, Step(false, s, MouseDown(p)), MouseMove(p.Plus(d))).position == s.position.Plus(d)
    ensures Step(false, Step(false, s, MouseDown(p)), MouseMove(p)).position == s.position
  {
  }

  /** Moving without a drag in progress changes nothing; releasing only clears the dragging flag. */
  lemma MoveWithoutDragAndRelease(small: bool, s: ViewState, p: Point)
    ensures !s.dragging ==> Step(small, s, MouseMove(p)) == s
    ensures Step(small, s, MouseUp) == s.(dragging := false)
  {
  }

  /** Reset puts scale 1 and offset (0, 0) from any state, and a second reset changes nothing. */
  lemma ResetIsIdempotent(small: bool, s: ViewState)
    ensures Step(small, s, Reset).scale == 1.0
    ensures Step(small, s, Reset).position == Point(0.0, 0.0)
    ensures Step(small, Step(small, s, Reset), Reset) == Step(small, s, Reset)
  {
  }

  /**
   * Focusing an entry with a hotspot forces scale 2 and the offset
   * (cw/2 - 2 (hx/100) iw, ch/2 - 2 (hy/100) ih), whatever the prior state.
   */
  lemma FocusRecenters(small: bool, s: ViewState, a: Attraction, container: Size, image: Size)
    requires a.id in Hotspots
    ensures Step(small, s, FocusChanged(Some(a), container, image)).scale == 2.0
    ensures Step(small, s, FocusChanged(Some(a), container, image)).position ==
      Point(container.width / 2.0 - 2.0 * (Hotspots[a.id].x / 100.0) * image.width,
            container.height / 2.0 - 2.0 * (Hotspots[a.id].y / 100.0) * image.height)
    ensures Step(small, s, FocusChanged(Some(a), container, image)).dragging == s.dragging
  {
    var h := Hotspots[a.id];
    assert 2.0 * (h.x / 100.0) * image.width == (h.x / 100.0 * image.width) * 2.0;
    assert 2.0 * (h.y / 100.0) * image.height == (h.y / 100.0 * image.height) * 2.0;
    assert Step(small, s, FocusChanged(Some(a), container, image)).position == Recenter(h, container, image);
  }

  /** Focusing the same entry again, with the same measurements, changes nothing more. */
  lemma FocusIsIdempotent(small: bool, s: ViewState, focused: Option<Attraction>, container: Size, image: Size)
    ensures Step(small, Step(small, s, FocusChanged(focused, container, image)), FocusChanged(focused, container, image)) ==
            Step(small, s, FocusChanged(focused, container, image))
  {
  }

  /** Clearing the focus, or focusing an entry without a hotspot, leaves the view as it was. */
  lemma FocusWithoutHotspotIsNoOp(small: bool, s: ViewState, focused: Option<Attraction>, container: Size, image: Size)
    requires focused.None? || focused.value.id !in Hotspots
    ensures Step(small, s, FocusChanged(focused, container, image)) == s
  {
  }

  // ---------------------------------------------------------------- markers

  datatype Marker = Marker(entry: Attraction, at: Hotspot, zIndex: int)

  const FocusedLayer: int := 1000
  const MarkerLayer: int := 10

  /** `focusedAttraction?.id === attraction.id` */
  predicate IsFocused(a: Attraction, focused: Option<Attraction>) {
    focused.Some? && focused.value.id == a.id
  }

  function LayerOf(a: Attraction, focused: Option<Attraction>): int {
    if IsFocused(a, focused) then FocusedLayer else MarkerLayer
  }

  /** The entries of `attractions` that have a place in `table`. */
  function Plotted(table: map<string, Hotspot>): Attraction -> bool {
    (a: Attraction) => a.id in table
  }

  /**
   * One marker for each entry with a place in `table`, in the order given, at
   * that place, on the top layer exactly when it is the focused entry.
   */
  function PlotMarkers(table: map<string, Hotspot>, attractions: seq<Attraction>, focused: Option<Attraction>): (ms: seq<Marker>)
    ensures |ms| == |Select(attractions, Plotted(table))|
    ensures forall k :: 0 <= k < |ms| ==> ms[k].entry == Select(attractions, Plotted(table))[k]
    ensures forall k :: 0 <= k < |ms| ==> ms[k].entry.id in table && ms[k].at == table[ms[k].entry.id]
    ensures forall k :: 0 <= k < |ms| ==> ms[k].zIndex == LayerOf(ms[k].entry, focused)
  {
    if attractions == [] then []
    else
      var a := attractions[0];
      var rest := PlotMarkers(table, attractions[1..], focused);
      var selected := Select(attractions[1..], Plotted(table));
      if a.id in table then
        assert Select(attractions, Plotted(table)) == [a] + selected;
        [Marker(a, table[a.id], LayerOf(a, focused))] + rest
      else
        assert Select(attractions, Plotted(table)) == selected;
        rest
  }

  /** The hotspot markers of the map: none at all in the minimap. */
  function Markers(small: bool, attractions: seq<Attraction>, focused: Option<Attraction>): (ms: seq<Marker>)
    ensures small ==> ms == []
    ensures !small ==> ms == PlotMarkers(Hotspots, attractions, focused)
  {
    if small then [] else PlotMarkers(Hotspots, attractions, focused)
  }

  /** Only markers of the focused entry are raised to the top layer; all others sit on layer 10. */
  lemma OnlyFocusedIsRaised(table: map<string, Hotspot>, attractions: seq<Attraction>, focused: Option<Attraction>, k: int)
    requires 0 <= k < |PlotMarkers(table, attractions, focused)|
    ensures PlotMarkers(table, attractions, focused)[k].zIndex == FocusedLayer <==>
      focused.Some? && PlotMarkers(table, attractions, focused)[k].entry.id == focused.value.id
    ensures PlotMarkers(table, attractions, focused)[k].zIndex != FocusedLayer ==>
      PlotMarkers(table, attractions, focused)[k].zIndex == MarkerLayer
  {
  }

  // ---------------------------------------------------------------- the component

  /** The map component's local state; `small` distinguishes the minimap instance. */
  class MapView {
    const small: bool
    var scale: real
    var position: Point
    var isDragging: bool
    var dragStart: Point

    function State(): ViewState
      reads this
    {
      ViewState(scale, position, isDragging, dragStart)
    }

    ghost predicate Valid()
      reads this
    {
      ScaleInRange(scale) && (small ==> !isDragging)
    }

    constructor (small: bool)
      ensures this.small == small
      ensures State() == Initial && Valid()
    {
      this.small := small;
      scale := 1.0;
      position := Point(0.0, 0.0);
      isDragging := false;
      dragStart := Point(0.0, 0.0);
    }

    method HandleMouseDown(pointer: Point)
      requires Valid()
      modifies this
      ensures Valid() && State() == Step(small, old(State()), MouseDown(pointer))
    {
      if small {
        return;
      }
      isDragging := true;
      dragStart := Point(pointer.x - position.x, pointer.y - position.y);
    }

    method HandleMouseMove(pointer: Point)
      requires Valid()
      modifies this
      ensures Valid() && State() == Step(small, old(State()), MouseMove(pointer))
    {
      if !isDragging {
        return;
      }
      position := Point(pointer.x - dragStart.x, pointer.y - dragStart.y);
    }

    /** Bound to both mouse-up and mouse-leave. */
    method HandleMouseUp()
      requires Valid()
      modifies this
      ensures Valid() && State() == Step(small, old(State()), MouseUp)
    {
      isDragging := false;
    }

    method HandleWheel(deltaY: real)
      requires Valid()
      modifies this
      ensures Valid() && State() == Step(small, old(State()), Wheel(deltaY))
    {
      if small {
        return;
      }
      var delta := if deltaY > 0.0 then 0.9 else 1.1;
      var raised := if scale * delta > MinScale then scale * delta else MinScale;
      scale := if raised < MaxScale then raised else MaxScale;
    }

    /** The zoom-in button (rendered only in the full view). */
    method ZoomIn()
      requires Valid()
      modifies this
      ensures Valid() && State() == Step(small, old(State()), Event.ZoomIn)
    {
      scale := if scale * 1.2 < MaxScale then scale * 1.2 else MaxScale;
    }

    /** The zoom-out button (rendered only in the full view). */
    method ZoomOut()
      requires Valid()
      modifies this
      ensures Valid() && State() == Step(small, old(State()), Event.ZoomOut)
    {
      scale := if scale * 0.8 > MinScale then scale * 0.8 else MinScale;
    }

    method ResetView()
      requires Valid()
      modifies this
      ensures Valid() && State() == Step(small, old(State()), Reset)
    {
      scale := 1.0;
      position := Point(0.0, 0.0);
    }

    /** The effect that runs when the focused entry changes. */
    method FocusOn(focused: Option<Attraction>, container: Size, image: Size)
      requires Valid()
      modifies this
      ensures Valid() && State() == Step(small, old(State()), FocusChanged(focused, container, image))
    {
      if focused.None? {
        return;
      }
      var id := focused.value.id;
      if id !in Hotspots {
        return;
      }
      scale := 2.0;
      position := Recenter(Hotspots[id], container, image);
    }
  }
}
