/** Pan and zoom of the diagram viewport, over exact reals. */
module Viewport {

  const MIN_ZOOM: real := 0.04
  const MAX_ZOOM: real := 8.0
  const PAD: real := 24.0

  /** A diagram point (x, y) is drawn at (left + panX + x * zoom, top + panY + y * zoom). */
  datatype View = View(zoom: real, panX: real, panY: real)

  /** Where the viewport sits on the screen. */
  datatype Box = Box(left: real, top: real, width: real, height: real)

  function Min(a: real, b: real): real {
    if a < b then a else b
  }

  function Max(a: real, b: real): real {
    if a > b then a else b
  }

  function Clamp(v: real, lo: real, hi: real): real {
    Max(lo, Min(hi, v))
  }

  /** The diagram coordinate drawn at screen coordinate a. */
  function PointAt(a: real, edge: real, pan: real, zoom: real): real
    requires zoom > 0.0
  {
    (a - edge - pan) / zoom
  }

  ghost predicate Good(v: View) {
    MIN_ZOOM <= v.zoom <= MAX_ZOOM
  }

  /** One wheel tick: zoom in proportion. */
  function Scaled(zoom: real, factor: real): real {
    zoom * factor
  }

  function ZoomView(v: View, nz: real, ax: real, ay: real, box: Box): View
    requires v.zoom > 0.0
  {
    var z := Clamp(nz, MIN_ZOOM, MAX_ZOOM);
    var cx := PointAt(ax, box.left, v.panX, v.zoom);
    var cy := PointAt(ay, box.top, v.panY, v.zoom);
    View(z, ax - box.left - cx * z, ay - box.top - cy * z)
  }

  predicate LaidOut(w: real, h: real, box: Box) {
    box.width > 2.0 && box.height > 2.0 && w > 0.0 && h > 0.0
  }

  /** The zoom at which the diagram and its padding just fit, at most 1. */
  function FitZoom(w: real, h: real, box: Box): real
    requires w > 0.0 && h > 0.0
  {
    Min(Min((box.width - PAD) / w, (box.height - PAD) / h), 1.0)
  }

  function FitView(v: View, w: real, h: real, box: Box): View {
    if !LaidOut(w, h, box) then v
    else
      var z := Clamp(FitZoom(w, h, box), MIN_ZOOM, 1.0);
      View(z, Max(PAD / 2.0, (box.width - w * z) / 2.0), Max(PAD / 2.0, (box.height - h * z) / 2.0))
  }

  // ----- zooming -----

  lemma CancelDivision(a: real, z: real)
    requires z != 0.0
    ensures (a / z) * z == a
    ensures (a * z) / z == a
  {
  }

  /** Zooming keeps the diagram point under the anchor where it is. */
  lemma ZoomKeepsAnchor(v: View, nz: real, ax: real, ay: real, box: Box)
    requires Good(v)
    ensures var v' := ZoomView(v, nz, ax, ay, box);
      && Good(v')
      && PointAt(ax, box.left, v'.panX, v'.zoom) == PointAt(ax, box.left, v.panX, v.zoom)
      && PointAt(ay, box.top, v'.panY, v'.zoom) == PointAt(ay, box.top, v.panY, v.zoom)
  {
    var v' := ZoomView(v, nz, ax, ay, box);
    var cx := PointAt(ax, box.left, v.panX, v.zoom);
    var cy := PointAt(ay, box.top, v.panY, v.zoom);
    CancelDivision(cx, v'.zoom);
    CancelDivision(cy, v'.zoom);
    assert ax - box.left - v'.panX == cx * v'.zoom;
    assert ay - box.top - v'.panY == cy * v'.zoom;
  }

  /** Two zooms at one anchor are the last one alone. */
  lemma LastZoomWins(v: View, nz: real, nz': real, ax: real, ay: real, box: Box)
    requires Good(v)
    ensures ZoomView(ZoomView(v, nz, ax, ay, box), nz', ax, ay, box) == ZoomView(v, nz', ax, ay, box)
  {
    ZoomKeepsAnchor(v, nz, ax, ay, box);
  }

  /** Zooming back to the old zoom at the same anchor undoes a zoom. */
  lemma ZoomBackUndoes(v: View, nz: real, ax: real, ay: real, box: Box)
    requires Good(v)
    ensures ZoomView(ZoomView(v, nz, ax, ay, box), v.zoom, ax, ay, box) == v
  {
    LastZoomWins(v, nz, v.zoom, ax, ay, box);
    CancelDivision(ax - box.left - v.panX, v.zoom);
    CancelDivision(ay - box.top - v.panY, v.zoom);
  }

  // ----- fitting -----

  lemma QuotientBound(z: real, a: real, w: real)
    requires w > 0.0
    ensures z <= a / w <==> w * z <= a
  {
    CancelDivision(a, w);
    if z <= a / w {
      Scale(w, z, a / w);
    }
    if w * z <= a {
      if z > a / w {
        ScaleStrict(w, a / w, z);
      }
    }
  }

  lemma Scale(w: real, x: real, y: real)
    requires w > 0.0 && x <= y
    ensures w * x <= w * y
  {
  }

  lemma ScaleStrict(w: real, x: real, y: real)
    requires w > 0.0 && x < y
    ensures w * x < w * y
  {
  }

  /** The whole diagram lies inside the viewport with at least half the padding on
      every side. */
  ghost predicate HasMargins(v: View, w: real, h: real, box: Box) {
    && v.panX >= PAD / 2.0 && v.panX + w * v.zoom <= box.width - PAD / 2.0
    && v.panY >= PAD / 2.0 && v.panY + h * v.zoom <= box.height - PAD / 2.0
  }

  ghost predicate Centred(v: View, w: real, h: real, box: Box) {
    2.0 * v.panX + w * v.zoom == box.width && 2.0 * v.panY + h * v.zoom == box.height
  }

  lemma FitZoomBound(z: real, w: real, h: real, box: Box)
    requires w > 0.0 && h > 0.0
    ensures z <= FitZoom(w, h, box) <==> z <= 1.0 && w * z <= box.width - PAD && h * z <= box.height - PAD
  {
    QuotientBound(z, box.width - PAD, w);
    QuotientBound(z, box.height - PAD, h);
  }

  /** Fitting shows the whole diagram with its margins exactly when the diagram fits at
      the smallest zoom; it is then centred, at the largest zoom up to 1 that leaves
      the margins. */
  lemma FitIsBest(v: View, w: real, h: real, box: Box)
    requires LaidOut(w, h, box)
    ensures var f := FitView(v, w, h, box);
      && Good(f) && f.zoom <= 1.0
      && (HasMargins(f, w, h, box) <==> w * MIN_ZOOM <= box.width - PAD && h * MIN_ZOOM <= box.height - PAD)
      && (HasMargins(f, w, h, box) ==>
            Centred(f, w, h, box)
            && forall z: real :: FitsAt(z, w, h, box) ==> z <= f.zoom)
      && (!HasMargins(f, w, h, box) ==> f.zoom == MIN_ZOOM)
      && 2.0 * f.panX >= PAD && 2.0 * f.panY >= PAD
      && (2.0 * f.panX > PAD ==> 2.0 * f.panX + w * f.zoom == box.width)
      && (2.0 * f.panY > PAD ==> 2.0 * f.panY + h * f.zoom == box.height)
  {
    var f := FitView(v, w, h, box);
    FitZoomBound(MIN_ZOOM, w, h, box);
    FitZoomBound(f.zoom, w, h, box);
    forall z: real | FitsAt(z, w, h, box)
      ensures z <= FitZoom(w, h, box)
    {
      FitZoomBound(z, w, h, box);
    }
  }

  ghost predicate FitsAt(z: real, w: real, h: real, box: Box) {
    z <= 1.0 && w * z <= box.width - PAD && h * z <= box.height - PAD
  }

  // ----- whole sessions -----

  datatype Drag = NotDragging | Dragging(sx: real, sy: real, px: real, py: real)

  datatype Session = Session(view: View, drag: Drag)

  /** factor stands for the exponential of the wheel; nothing depends on its value. */
  datatype Event =
    | Wheel(factor: real, ax: real, ay: real, box: Box)
    | Down(x: real, y: real)
    | Move(x: real, y: real)
    | Up
    | DoubleClick(ax: real, ay: real, box: Box)
    | Reset
    | Fit(w: real, h: real, box: Box)

  const START: Session := Session(View(1.0, 0.0, 0.0), NotDragging)

  function Next(s: Session, e: Event): Session
    requires s.view.zoom > 0.0
  {
    match e
    case Wheel(factor, ax, ay, box) => s.(view := ZoomView(s.view, Scaled(s.view.zoom, factor), ax, ay, box))
    case Down(x, y) => s.(drag := Dragging(x, y, s.view.panX, s.view.panY))
    case Move(x, y) =>
      if s.drag.NotDragging? then s
      else s.(view := s.view.(panX := s.drag.px + (x - s.drag.sx), panY := s.drag.py + (y - s.drag.sy)))
    case Up => s.(drag := NotDragging)
    case DoubleClick(ax, ay, box) => s.(view := ZoomView(s.view, if s.view.zoom > 1.0 then 1.0 else 2.0, ax, ay, box))
    case Reset => s.(view := View(1.0, 0.0, 0.0))
    case Fit(w, h, box) => s.(view := FitView(s.view, w, h, box))
  }

  lemma StepKeepsZoom(s: Session, e: Event)
    requires Good(s.view)
    ensures Good(Next(s, e).view)
  {
  }

  function Play(s: Session, events: seq<Event>): (s': Session)
    requires Good(s.view)
    ensures Good(s'.view)
    decreases |events|
  {
    if events == [] then s
    else
      StepKeepsZoom(s, events[0]);
      Play(Next(s, events[0]), events[1..])
  }

  lemma {:induction false} PlayAppend(s: Session, a: seq<Event>, b: seq<Event>)
    requires Good(s.view)
    ensures Play(s, a + b) == Play(Play(s, a), b)
    decreases |a|
  {
    if a == [] {
      assert a + b == b;
    } else {
      assert (a + b)[1..] == a[1..] + b;
      PlayAppend(Next(s, a[0]), a[1..], b);
    }
  }

  /** Fitting forgets whatever was done before: any two sessions end in the same view. */
  lemma FitForgetsTheSession(events: seq<Event>, events': seq<Event>, w: real, h: real, box: Box)
    requires LaidOut(w, h, box)
    ensures Play(START, events + [Fit(w, h, box)]).view == Play(START, events' + [Fit(w, h, box)]).view
  {
    PlayAppend(START, events, [Fit(w, h, box)]);
    PlayAppend(START, events', [Fit(w, h, box)]);
    assert [Fit(w, h, box)][1..] == [];
  }

  /** Turning the wheel and turning it back the same way at one place restores the view, as
      long as the first turn stays within the bounds. */
  lemma WheelBackUndoes(s: Session, factor: real, back: real, ax: real, ay: real, box: Box)
    requires Good(s.view) && factor * back == 1.0 && MIN_ZOOM <= s.view.zoom * factor <= MAX_ZOOM
    ensures Next(Next(s, Wheel(factor, ax, ay, box)), Wheel(back, ax, ay, box)) == s
  {
    TimesBack(s.view.zoom, factor, back);
    ZoomBackUndoes(s.view, Scaled(s.view.zoom, factor), ax, ay, box);
  }

  lemma TimesBack(z: real, factor: real, back: real)
    requires factor * back == 1.0
    ensures Scaled(Scaled(z, factor), back) == z
  {
    assert z * factor * back == z * (factor * back);
  }

  /** A double click goes to the original size, or from there to twice that size; a second one
      at the same place undoes it for a view that was at one of the two. */
  lemma DoubleClickToggles(s: Session, ax: real, ay: real, box: Box)
    requires Good(s.view)
    ensures var s1 := Next(s, DoubleClick(ax, ay, box));
      && s1.view.zoom == (if s.view.zoom > 1.0 then 1.0 else 2.0) && s1.drag == s.drag
      && (s.view.zoom == 1.0 || s.view.zoom == 2.0 ==> Next(s1, DoubleClick(ax, ay, box)) == s)
  {
    ZoomBackUndoes(s.view, if s.view.zoom > 1.0 then 1.0 else 2.0, ax, ay, box);
  }

  function Moves(points: seq<(real, real)>): (r: seq<Event>)
    ensures |r| == |points|
  {
    if points == [] then [] else [Move(points[0].0, points[0].1)] + Moves(points[1..])
  }

  /** A drag, whatever its path, moves the view by the distance between its ends. */
  lemma {:induction false} DragFollowsPointer(s: Session, points: seq<(real, real)>)
    requires Good(s.view) && s.drag.Dragging? && points != []
    ensures var (x, y) := points[|points| - 1];
      var s' := Play(s, Moves(points));
      && s'.drag == s.drag && s'.view.zoom == s.view.zoom
      && s'.view.panX == s.drag.px + (x - s.drag.sx) && s'.view.panY == s.drag.py + (y - s.drag.sy)
    decreases |points|
  {
    var s1 := Next(s, Move(points[0].0, points[0].1));
    assert Moves(points)[1..] == Moves(points[1..]);
    if |points| > 1 {
      DragFollowsPointer(s1, points[1..]);
      assert points[1..][|points| - 2] == points[|points| - 1];
    }
  }

  /** The stage object of the renderer. */
  class Stage {
    var zoom: real
    var panX: real
    var panY: real
    var dragging: bool
    var sx: real
    var sy: real
    var px: real
    var py: real

    ghost predicate Valid()
      reads this
    {
      MIN_ZOOM <= zoom <= MAX_ZOOM
    }

    ghost function State(): Session
      reads this
    {
      Session(View(zoom, panX, panY), if dragging then Dragging(sx, sy, px, py) else NotDragging)
    }

    constructor ()
      ensures Valid() && State() == START
    {
      zoom, panX, panY, dragging := 1.0, 0.0, 0.0, false;
      sx, sy, px, py := 0.0, 0.0, 0.0, 0.0;
    }

    method ZoomAt(nz: real, ax: real, ay: real, box: Box)
      requires Valid()
      modifies this`zoom, this`panX, this`panY
      ensures Valid()
      ensures State() == old(State()).(view := ZoomView(old(State()).view, nz, ax, ay, box))
      ensures PointAt(ax, box.left, panX, zoom) == PointAt(ax, box.left, old(panX), old(zoom))
      ensures PointAt(ay, box.top, panY, zoom) == PointAt(ay, box.top, old(panY), old(zoom))
    {
      ZoomKeepsAnchor(State().view, nz, ax, ay, box);
      var z := Clamp(nz, MIN_ZOOM, MAX_ZOOM);
      var cx, cy := PointAt(ax, box.left, panX, zoom), PointAt(ay, box.top, panY, zoom);
      zoom := z;
      panX := ax - box.left - cx * zoom;
      panY := ay - box.top - cy * zoom;
    }

    method OnWheel(factor: real, ax: real, ay: real, box: Box)
      requires Valid()
      modifies this
      ensures Valid() && State() == Next(old(State()), Wheel(factor, ax, ay, box))
    {
      ZoomAt(Scaled(zoom, factor), ax, ay, box);
    }

    method OnDoubleClick(ax: real, ay: real, box: Box)
      requires Valid()
      modifies this
      ensures Valid() && State() == Next(old(State()), DoubleClick(ax, ay, box))
    {
      ZoomAt(if zoom > 1.0 then 1.0 else 2.0, ax, ay, box);
    }

    method OnPointerDown(x: real, y: real)
      requires Valid()
      modifies this
      ensures Valid() && State() == Next(old(State()), Down(x, y))
    {
      dragging, sx, sy, px, py := true, x, y, panX, panY;
    }

    method OnPointerMove(x: real, y: real)
      requires Valid()
      modifies this
      ensures Valid() && State() == Next(old(State()), Move(x, y))
    {
      if !dragging {
        return;
      }
      panX, panY := px + (x - sx), py + (y - sy);
    }

    method OnPointerUp()
      requires Valid()
      modifies this
      ensures Valid() && State() == Next(old(State()), Up)
    {
      dragging := false;
    }

    method ResetView()
      requires Valid()
      modifies this
      ensures Valid() && State() == Next(old(State()), Reset)
    {
      zoom, panX, panY := 1.0, 0.0, 0.0;
    }

    method FitDiagram(w: real, h: real, box: Box)
      requires Valid()
      modifies this
      ensures Valid() && State() == Next(old(State()), Fit(w, h, box))
    {
      if !(box.width > 2.0 && box.height > 2.0 && w > 0.0 && h > 0.0) {
        return;
      }
      var ratio := Min(Min((box.width - PAD) / w, (box.height - PAD) / h), 1.0);
      assert ratio == FitZoom(w, h, box);
      zoom := Clamp(ratio, MIN_ZOOM, 1.0);
      panX := Max(PAD / 2.0, (box.width - w * zoom) / 2.0);
      panY := Max(PAD / 2.0, (box.height - h * zoom) / 2.0);
    }
  }
}
