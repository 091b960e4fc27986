/**
 * Zooming and pinching the two-dimensional graph, over the reals.
 *
 * A camera has an offset from the middle of the view and a zoom. Zooming keeps the point under an
 * anchor, a drag the point under the finger, and a pinch the point between the fingers.
 */
module CameraZoom {
  import opened Wrappers

  datatype Point = Point(x: real, y: real)

  datatype Camera = Camera(x: real, y: real, zoom: real)

  datatype Viewport = Viewport(width: real, height: real)

  const MIN_ZOOM := 0.000001
  const MAX_ZOOM := 64.0

  function ClampZoom(zoom: real): (z: real)
    ensures MIN_ZOOM <= z <= MAX_ZOOM
    ensures MIN_ZOOM <= zoom <= MAX_ZOOM ==> z == zoom
    ensures zoom < 0.000001 ==> z == 0.000001
    ensures zoom > 64.0 ==> z == 64.0
  {
    var capped := if zoom < MAX_ZOOM then zoom else MAX_ZOOM;
    if capped > MIN_ZOOM then capped else MIN_ZOOM
  }

  /** The point of the graph that a camera shows at a place of the screen. */
  function World(camera: Camera, screen: Point, view: Viewport): Point
    requires camera.zoom > 0.0
  {
    Point((screen.x - (view.width / 2.0 + camera.x)) / camera.zoom, (screen.y - (view.height / 2.0 + camera.y)) / camera.zoom)
  }

  /** The place of the screen where a camera draws a point of the graph. */
  function Drawn(camera: Camera, point: Point, view: Viewport): Point {
    Point(view.width / 2.0 + camera.x + point.x * camera.zoom, view.height / 2.0 + camera.y + point.y * camera.zoom)
  }

  /** `zoomCameraAt` */
  function ZoomAt(camera: Camera, zoom: real, anchor: Point, view: Viewport): (next: Camera)
    requires camera.zoom > 0.0
    ensures next.zoom == ClampZoom(zoom)
  {
    var nextZoom := ClampZoom(zoom);
    if nextZoom == camera.zoom then camera
    else
      var world := World(camera, anchor, view);
      Camera(anchor.x - view.width / 2.0 - world.x * nextZoom, anchor.y - view.height / 2.0 - world.y * nextZoom, nextZoom)
  }

  lemma QuotientOf(a: real, w: real, z: real)
    requires z > 0.0
    ensures a / z == w <==> a == w * z
  {
    if a == w * z { assert a / z == w; }
    if a / z == w { assert a == (a / z) * z; }
  }

  // A camera of a given zoom shows a point at a place exactly when its offset says so.
  lemma ShowsAt(camera: Camera, screen: Point, world: Point, view: Viewport)
    requires camera.zoom > 0.0
    ensures World(camera, screen, view) == world <==>
              && camera.x == screen.x - view.width / 2.0 - world.x * camera.zoom
              && camera.y == screen.y - view.height / 2.0 - world.y * camera.zoom
  {
    QuotientOf(screen.x - (view.width / 2.0 + camera.x), world.x, camera.zoom);
    QuotientOf(screen.y - (view.height / 2.0 + camera.y), world.y, camera.zoom);
  }

  /** A camera shows a point at a place exactly when it draws it there. */
  lemma ShownIsDrawn(camera: Camera, screen: Point, world: Point, view: Viewport)
    requires camera.zoom > 0.0
    ensures World(camera, screen, view) == world <==> Drawn(camera, world, view) == screen
  {
    ShowsAt(camera, screen, world, view);
  }

  /** Zooming gives the one camera of the clamped zoom that shows the same point under the anchor. */
  lemma ZoomIsTheOnlyOne(camera: Camera, zoom: real, anchor: Point, view: Viewport, next: Camera)
    requires camera.zoom > 0.0
    ensures next == ZoomAt(camera, zoom, anchor, view) <==>
            next.zoom == ClampZoom(zoom) && World(next, anchor, view) == World(camera, anchor, view)
  {
    if next.zoom == ClampZoom(zoom) {
      ShowsAt(next, anchor, World(camera, anchor, view), view);
      ShowsAt(camera, anchor, World(camera, anchor, view), view);
    }
  }

  lemma AnchorStays(camera: Camera, zoom: real, anchor: Point, view: Viewport)
    requires camera.zoom > 0.0
    ensures World(ZoomAt(camera, zoom, anchor, view), anchor, view) == World(camera, anchor, view)
  {
    ZoomIsTheOnlyOne(camera, zoom, anchor, view, ZoomAt(camera, zoom, anchor, view));
  }

  function ZoomThrough(camera: Camera, zooms: seq<real>, anchor: Point, view: Viewport): (next: Camera)
    requires camera.zoom > 0.0
    ensures next.zoom > 0.0
  {
    if zooms == [] then camera
    else ZoomAt(ZoomThrough(camera, zooms[..|zooms| - 1], anchor, view), zooms[|zooms| - 1], anchor, view)
  }

  lemma {:induction false} AnchorStaysThrough(camera: Camera, zooms: seq<real>, anchor: Point, view: Viewport)
    requires camera.zoom > 0.0
    ensures World(ZoomThrough(camera, zooms, anchor, view), anchor, view) == World(camera, anchor, view)
  {
    if zooms != [] {
      var before := ZoomThrough(camera, zooms[..|zooms| - 1], anchor, view);
      AnchorStaysThrough(camera, zooms[..|zooms| - 1], anchor, view);
      AnchorStays(before, zooms[|zooms| - 1], anchor, view);
    }
  }

  /** Any zooms at one anchor amount to the last of them, limits and the no-change case included. */
  lemma OnlyTheLastZoomCounts(camera: Camera, zooms: seq<real>, anchor: Point, view: Viewport)
    requires camera.zoom > 0.0 && zooms != []
    ensures ZoomThrough(camera, zooms, anchor, view) == ZoomAt(camera, zooms[|zooms| - 1], anchor, view)
  {
    AnchorStaysThrough(camera, zooms, anchor, view);
    ZoomIsTheOnlyOne(camera, zooms[|zooms| - 1], anchor, view, ZoomThrough(camera, zooms, anchor, view));
  }

  /** Zooming back at the same anchor restores the camera exactly when its zoom was within the limits. */
  lemma ZoomingBack(camera: Camera, zoom: real, anchor: Point, view: Viewport)
    requires camera.zoom > 0.0
    ensures ZoomAt(ZoomAt(camera, zoom, anchor, view), camera.zoom, anchor, view) == camera <==> MIN_ZOOM <= camera.zoom <= MAX_ZOOM
  {
    var there := ZoomAt(camera, zoom, anchor, view);
    AnchorStays(camera, zoom, anchor, view);
    ZoomIsTheOnlyOne(there, camera.zoom, anchor, view, camera);
  }

  function Moved(camera: Camera, from: Point, to: Point): Camera {
    camera.(x := camera.x + to.x - from.x, y := camera.y + to.y - from.y)
  }

  lemma MovingCarries(camera: Camera, from: Point, to: Point, view: Viewport)
    requires camera.zoom > 0.0
    ensures World(Moved(camera, from, to), to, view) == World(camera, from, view)
  {}

  // The camera after a finger has gone along a path.
  function Dragged(camera: Camera, path: seq<Point>): (next: Camera)
    requires path != []
    ensures next.zoom == camera.zoom
  {
    var n := |path|;
    if n == 1 then camera else Moved(Dragged(camera, path[..n - 1]), path[n - 2], path[n - 1])
  }

  /** A whole drag carries the point of the graph under the finger along with it. */
  lemma {:induction false} DragCarries(camera: Camera, path: seq<Point>, view: Viewport)
    requires camera.zoom > 0.0 && path != []
    ensures World(Dragged(camera, path), path[|path| - 1], view) == World(camera, path[0], view)
  {
    var n := |path|;
    if n > 1 {
      DragCarries(camera, path[..n - 1], view);
      MovingCarries(Dragged(camera, path[..n - 1]), path[n - 2], path[n - 1], view);
    }
  }

  datatype Gesture = Gesture(camera: Camera, distance: real, midpoint: Point)

  function Midpoint(first: Point, second: Point): (middle: Point)
    ensures middle.x - first.x == second.x - middle.x && middle.y - first.y == second.y - middle.y
  {
    Point((first.x + second.x) / 2.0, (first.y + second.y) / 2.0)
  }

  function AtLeastTen(distance: real): real {
    if distance > 10.0 then distance else 10.0
  }

  function PinchTarget(zoom: real, from: real, to: real): real {
    zoom * AtLeastTen(to) / AtLeastTen(from)
  }

  /** The camera of a pinch: zoomed by the ratio of the distances, then moved with the midpoint. */
  function Pinched(gesture: Gesture, distance: real, midpoint: Point, view: Viewport): (next: Camera)
    requires gesture.camera.zoom > 0.0
    ensures next.zoom > 0.0
  {
    var zoomed := ZoomAt(gesture.camera, PinchTarget(gesture.camera.zoom, gesture.distance, distance), gesture.midpoint, view);
    Moved(zoomed, gesture.midpoint, midpoint)
  }

  /** A pinch carries the point of the graph under the starting midpoint to the current midpoint. */
  lemma PinchCarries(gesture: Gesture, distance: real, midpoint: Point, view: Viewport)
    requires gesture.camera.zoom > 0.0
    ensures World(Pinched(gesture, distance, midpoint, view), midpoint, view) == World(gesture.camera, gesture.midpoint, view)
  {
    var zoom := PinchTarget(gesture.camera.zoom, gesture.distance, distance);
    AnchorStays(gesture.camera, zoom, gesture.midpoint, view);
    MovingCarries(ZoomAt(gesture.camera, zoom, gesture.midpoint, view), gesture.midpoint, midpoint, view);
  }

  // What a pinch makes of a zoom: in proportion to the distances, as long as these are at least 10 and the result
  // is within the limits; and never out when the fingers spread, never in when they close.
  predicate ZoomOfPinch(start: real, from: real, to: real, zoom: real) {
    && MIN_ZOOM <= zoom <= MAX_ZOOM
    && (from >= 10.0 && to >= 10.0 && MIN_ZOOM * from <= start * to <= MAX_ZOOM * from ==> zoom * from == start * to)
    && (MIN_ZOOM <= start <= MAX_ZOOM && to >= from ==> zoom >= start)
    && (MIN_ZOOM <= start <= MAX_ZOOM && to <= from ==> zoom <= start)
  }

  lemma LessTimes(a: real, b: real, c: real)
    requires a <= b && c > 0.0
    ensures a * c <= b * c
    ensures a < b ==> a * c < b * c
  {}

  lemma Proportion(start: real, from: real, to: real, q: real)
    requires start > 0.0 && from > 0.0 && q * from == start * to
    ensures to >= from ==> q >= start
    ensures to <= from ==> q <= start
  {
    if to >= from { LessTimes(from, to, start); }
    if to <= from { LessTimes(to, from, start); }
    if q < start { LessTimes(q, start, from); } else { LessTimes(start, q, from); }
  }

  lemma WithinLimits(from: real, product: real, q: real)
    requires from > 0.0 && q * from == product && MIN_ZOOM * from <= product <= MAX_ZOOM * from
    ensures MIN_ZOOM <= q <= MAX_ZOOM
  {
    if q < MIN_ZOOM { LessTimes(q, MIN_ZOOM, from); }
    if q > MAX_ZOOM { LessTimes(MAX_ZOOM, q, from); }
  }

  lemma ClampedProportion(start: real, from: real, to: real, q: real)
    requires start > 0.0 && from > 0.0 && q * from == start * to
    ensures ZoomOfPinch(start, from, to, ClampZoom(q))
  {
    Proportion(start, from, to, q);
    if MIN_ZOOM * from <= start * to <= MAX_ZOOM * from { WithinLimits(from, start * to, q); }
  }

  lemma TargetInProportion(start: real, from: real, to: real)
    ensures PinchTarget(start, from, to) * AtLeastTen(from) == start * AtLeastTen(to)
  {}

  lemma AtLeastTenKeeps(start: real, from: real, to: real, zoom: real)
    requires ZoomOfPinch(start, AtLeastTen(from), AtLeastTen(to), zoom)
    ensures ZoomOfPinch(start, from, to, zoom)
  {}

  /** The zoom of a pinch, for any distances. */
  lemma PinchZooms(gesture: Gesture, distance: real, midpoint: Point, view: Viewport)
    requires gesture.camera.zoom > 0.0
    ensures ZoomOfPinch(gesture.camera.zoom, gesture.distance, distance, Pinched(gesture, distance, midpoint, view).zoom)
  {
    var start, from := gesture.camera.zoom, gesture.distance;
    TargetInProportion(start, from, distance);
    ClampedProportion(start, AtLeastTen(from), AtLeastTen(distance), PinchTarget(start, from, distance));
    AtLeastTenKeeps(start, from, distance, ClampZoom(PinchTarget(start, from, distance)));
  }

  datatype Pointer = Pointer(id: int, at: Point)

  // `Map.set` and `Map.delete`, in insertion order.
  function Put(pointers: seq<Pointer>, pointer: Pointer): seq<Pointer> {
    if pointers == [] then [pointer]
    else if pointers[0].id == pointer.id then [pointer] + pointers[1..]
    else [pointers[0]] + Put(pointers[1..], pointer)
  }

  function Remove(pointers: seq<Pointer>, id: int): seq<Pointer> {
    if pointers == [] then []
    else if pointers[0].id == id then pointers[1..]
    else [pointers[0]] + Remove(pointers[1..], id)
  }

  function Find(pointers: seq<Pointer>, id: int): Option<Point> {
    if pointers == [] then None
    else if pointers[0].id == id then Some(pointers[0].at)
    else Find(pointers[1..], id)
  }

  /** The pointers behave as a map in order of insertion. */
  lemma {:induction false} PutFinds(pointers: seq<Pointer>, pointer: Pointer, id: int)
    ensures Find(Put(pointers, pointer), id) == if id == pointer.id then Some(pointer.at) else Find(pointers, id)
    ensures |Put(pointers, pointer)| == |pointers| + if Find(pointers, pointer.id).Some? then 0 else 1
    ensures forall k :: 0 <= k < |pointers| ==> Put(pointers, pointer)[k].id == pointers[k].id
  {
    if pointers != [] && pointers[0].id != pointer.id {
      PutFinds(pointers[1..], pointer, id);
    }
  }

  ghost predicate OnePerId(pointers: seq<Pointer>) {
    forall i, j :: 0 <= i < j < |pointers| ==> pointers[i].id != pointers[j].id
  }

  lemma {:induction false} NotFound(pointers: seq<Pointer>, id: int)
    requires forall i :: 0 <= i < |pointers| ==> pointers[i].id != id
    ensures Find(pointers, id) == None
  {
    if pointers != [] {
      NotFound(pointers[1..], id);
    }
  }

  lemma {:induction false} RemoveFinds(pointers: seq<Pointer>, removed: int, id: int)
    requires OnePerId(pointers)
    ensures Find(Remove(pointers, removed), id) == if id == removed then None else Find(pointers, id)
  {
    if pointers != [] {
      if pointers[0].id == removed {
        NotFound(pointers[1..], removed);
      } else {
        RemoveFinds(pointers[1..], removed, id);
      }
    }
  }

  type Length = (real, real) -> real

  /** The pointer handlers of the canvas. `Math.hypot` is a parameter. */
  class Canvas {
    var camera: Camera
    var pointers: seq<Pointer>
    var gesture: Option<Gesture>
    const view: Viewport
    const hypot: Length

    ghost predicate Valid()
      reads this
    {
      camera.zoom > 0.0 && (gesture.Some? ==> gesture.value.camera.zoom > 0.0)
    }

    constructor (camera: Camera, view: Viewport, hypot: Length)
      requires camera.zoom > 0.0
      ensures Valid() && this.camera == camera && this.view == view && this.hypot == hypot
      ensures pointers == [] && gesture == None
    {
      this.camera, this.view, this.hypot := camera, view, hypot;
      pointers, gesture := [], None;
    }

    function Middle(): Point
      requires |pointers| >= 2
      reads this
    {
      Midpoint(pointers[0].at, pointers[1].at)
    }

    function Spread(): real
      requires |pointers| >= 2
      reads this
    {
      hypot(pointers[1].at.x - pointers[0].at.x, pointers[1].at.y - pointers[0].at.y)
    }

    method PointerDown(id: int, at: Point)
      requires Valid()
      modifies this`pointers, this`gesture
      ensures Valid() && pointers == Put(old(pointers), Pointer(id, at))
      ensures gesture == if |pointers| == 2 then Some(Gesture(camera, Spread(), Middle())) else old(gesture)
      ensures |pointers| == 2 ==>
                gesture.value.distance == hypot(pointers[1].at.x - pointers[0].at.x, pointers[1].at.y - pointers[0].at.y)
    {
      pointers := Put(pointers, Pointer(id, at));
      if |pointers| == 2 {
        gesture := Some(Gesture(camera, Spread(), Middle()));
      }
    }

    // One finger drags the point under it; two carry the point that was between them when the pinch began.
    method PointerMove(id: int, next: Point)
      requires Valid()
      modifies this`pointers, this`camera
      ensures Valid()
      ensures Find(old(pointers), id).None? ==> pointers == old(pointers) && camera == old(camera)
      ensures Find(old(pointers), id).Some? ==> pointers == Put(old(pointers), Pointer(id, next))
      ensures Find(old(pointers), id).Some? && |pointers| == 1 ==>
                camera.zoom == old(camera).zoom
                && World(camera, next, view) == World(old(camera), Find(old(pointers), id).value, view)
      ensures Find(old(pointers), id).Some? && |pointers| >= 2 && gesture.Some? ==>
                camera == Pinched(gesture.value, Spread(), Middle(), view)
                && ZoomOfPinch(gesture.value.camera.zoom, gesture.value.distance,
                               hypot(pointers[1].at.x - pointers[0].at.x, pointers[1].at.y - pointers[0].at.y), camera.zoom)
                && World(camera, Middle(), view) == World(gesture.value.camera, gesture.value.midpoint, view)
      ensures |pointers| >= 2 && gesture.None? ==> camera == old(camera)
    {
      var previous := Find(pointers, id);
      if previous.None? {
        return;
      }
      pointers := Put(pointers, Pointer(id, next));
      if |pointers| == 1 {
        MovingCarries(camera, previous.value, next, view);
        camera := Moved(camera, previous.value, next);
        return;
      }
      if gesture.None? || |pointers| < 2 {
        return;
      }
      PinchCarries(gesture.value, Spread(), Middle(), view);
      PinchZooms(gesture.value, Spread(), Middle(), view);
      camera := Pinched(gesture.value, Spread(), Middle(), view);
    }

    method PointerUp(id: int)
      requires Valid()
      modifies this`pointers, this`gesture
      ensures Valid() && pointers == Remove(old(pointers), id) && gesture == None
    {
      pointers := Remove(pointers, id);
      gesture := None;
    }
  }
}
