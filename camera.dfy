/** The camera controller of the map view (`MapModel`): wheel zoom clamped to
    [MinZoom, MaxZoom], arrow-key panning in steps of MoveSpeed inside bounds
    that depend on the zoom read at key-down, a repeating timer that keeps
    panning until key-up or a bound, and a reset to the default view.

    The pure functions below describe each handler as a transition of a
    `Controller` value; class `Camera` holds the same state in mutable fields
    and its methods are proved to perform exactly those transitions. */
module CameraControl {
  import opened Keys

  // Zoom limits and wheel sensitivity
  const MinZoom: real := 7.0
  const MaxZoom: real := 15.0
  const ZoomSpeed: real := 0.002

  // Panning: step size, vertical limit, horizontal limits zoomed out / zoomed in
  const MoveSpeed: real := 0.2
  const MaxMovement: real := 1.0
  const DefaultMaxSide: real := 0.5
  const ZoomedMaxSide: real := 3.0
  /** A camera whose z is below this is "zoomed in": wider horizontal bounds
      and vertical panning allowed. */
  const ZoomedInBelow: real := 10.5

  datatype Option<T> = None | Some(value: T)

  datatype Position = Position(x: real, y: real, z: real)

  const DefaultPosition: Position := Position(0.0, 0.0, 15.0)

  /** Horizontal pan limits: x may be stepped left while x > -maxLeft and
      right while x < maxRight. */
  datatype Bounds = Bounds(maxLeft: real, maxRight: real)

  /** Everything the controller remembers between events.
      `intervalActive` stands for a live `setInterval` handle in
      `movementInterval`; `key` and `capturedZoom` are what the interval's
      closure captured at the last non-repeat key-down. */
  datatype Controller = Controller(
    pos: Position,
    intervalActive: bool,
    singleKeyPressMovement: bool,
    key: string,
    capturedZoom: real)

  /** The timer can only be live while the flag that lets it move is set. */
  predicate Consistent(s: Controller)
  {
    s.intervalActive ==> s.singleKeyPressMovement
  }

  /** THREE.MathUtils.clamp: max(lo, min(hi, v)). */
  function Clamp(v: real, lo: real, hi: real): (r: real)
    ensures lo <= hi ==> lo <= r <= hi
    ensures lo <= v <= hi ==> r == v
    ensures v < lo ==> r == lo
    ensures lo <= hi && hi < v ==> r == hi
  {
    var upper := if v < hi then v else hi;
    if lo > upper then lo else upper
  }

  /** The z that a wheel event with the given deltaY leaves behind. */
  function ZoomTarget(z: real, deltaY: real): (r: real)
    ensures MinZoom <= r <= MaxZoom
    ensures MinZoom <= z - deltaY * ZoomSpeed <= MaxZoom ==> r == z - deltaY * ZoomSpeed
    ensures z - deltaY * ZoomSpeed < MinZoom ==> r == MinZoom
    ensures MaxZoom < z - deltaY * ZoomSpeed ==> r == MaxZoom
  {
    Clamp(z - deltaY * ZoomSpeed, MinZoom, MaxZoom)
  }

  /** The horizontal limits chosen from the zoom read at key-down. */
  function PanBounds(zoom: real): (b: Bounds)
    ensures b.maxLeft == b.maxRight
    ensures zoom < ZoomedInBelow ==> b.maxLeft == ZoomedMaxSide
    ensures ZoomedInBelow <= zoom ==> b.maxLeft == DefaultMaxSide
  {
    if zoom < ZoomedInBelow then Bounds(ZoomedMaxSide, ZoomedMaxSide)
    else Bounds(DefaultMaxSide, DefaultMaxSide)
  }

  /** How far the camera may still travel in the direction of `key` before
      its guard stops it; zero or less when the guard already fails, and
      zero for keys that never move the camera (a vertical key while zoomed
      out, a key that is not an arrow). */
  function Headroom(p: Position, key: string, zoom: real): real
  {
    var b := PanBounds(zoom);
    if key == ArrowLeft then p.x + b.maxLeft
    else if key == ArrowRight then b.maxRight - p.x
    else if key == ArrowUp && zoom < ZoomedInBelow then MaxMovement - p.y
    else if key == ArrowDown && zoom < ZoomedInBelow then p.y + MaxMovement
    else 0.0
  }

  /** q differs from p in exactly one of x and y, by exactly one step, and has
      the same z. */
  predicate OneStep(p: Position, q: Position)
  {
    q.z == p.z &&
    ((q.y == p.y && (q.x == p.x - MoveSpeed || q.x == p.x + MoveSpeed)) ||
     (q.x == p.x && (q.y == p.y - MoveSpeed || q.y == p.y + MoveSpeed)))
  }

  /** The pan region for a captured zoom, widened by less than one step on
      each side: where guarded steps can take a camera that starts inside. */
  predicate WithinReach(p: Position, zoom: real)
  {
    var b := PanBounds(zoom);
    -b.maxLeft - MoveSpeed < p.x < b.maxRight + MoveSpeed &&
    -MaxMovement - MoveSpeed < p.y < MaxMovement + MoveSpeed
  }

  /** The pan region itself. */
  predicate WithinBounds(p: Position, zoom: real)
  {
    var b := PanBounds(zoom);
    -b.maxLeft <= p.x <= b.maxRight && -MaxMovement <= p.y <= MaxMovement
  }

  /** The position change of one `moveCamera` call, or None when its guard
      fails (and it clears the interval instead). */
  function Step(p: Position, key: string, zoom: real): (r: Option<Position>)
    ensures r.Some? <==> Headroom(p, key, zoom) > 0.0
    ensures r.Some? ==> OneStep(p, r.value)
    ensures r.Some? ==> Headroom(r.value, key, zoom) == Headroom(p, key, zoom) - MoveSpeed
    ensures r.Some? && WithinReach(p, zoom) ==> WithinReach(r.value, zoom)
    ensures r.Some? && r.value.x < p.x ==> key == ArrowLeft && -PanBounds(zoom).maxLeft - MoveSpeed < r.value.x
    ensures r.Some? && r.value.x > p.x ==> key == ArrowRight && r.value.x < PanBounds(zoom).maxRight + MoveSpeed
    ensures r.Some? && r.value.y > p.y ==> key == ArrowUp && zoom < ZoomedInBelow && r.value.y < MaxMovement + MoveSpeed
    ensures r.Some? && r.value.y < p.y ==> key == ArrowDown && zoom < ZoomedInBelow && -MaxMovement - MoveSpeed < r.value.y
    ensures !IsArrowKey(key) ==> r.None?
  {
    ArrowKeysDistinct();
    var b := PanBounds(zoom);
    if key == ArrowLeft && p.x > -b.maxLeft then Some(p.(x := p.x - MoveSpeed))
    else if key == ArrowRight && p.x < b.maxRight then Some(p.(x := p.x + MoveSpeed))
    else if key == ArrowUp && zoom < ZoomedInBelow && p.y < MaxMovement then Some(p.(y := p.y + MoveSpeed))
    else if key == ArrowDown && zoom < ZoomedInBelow && p.y > -MaxMovement then Some(p.(y := p.y - MoveSpeed))
    else None
  }

  /** `resetCamera`. */
  function AfterReset(s: Controller): (r: Controller)
    ensures r.pos == Position(0.0, 0.0, MaxZoom)
    ensures MinZoom <= r.pos.z <= MaxZoom
    ensures r.intervalActive == s.intervalActive && r.singleKeyPressMovement == s.singleKeyPressMovement
    ensures r.key == s.key && r.capturedZoom == s.capturedZoom
  {
    s.(pos := DefaultPosition)
  }

  /** `handleZoom` for a wheel event with the given deltaY. */
  function AfterZoom(s: Controller, deltaY: real): (r: Controller)
    ensures MinZoom <= r.pos.z <= MaxZoom
    ensures r.pos.z == Clamp(s.pos.z - deltaY * ZoomSpeed, MinZoom, MaxZoom)
    ensures r.pos.x == s.pos.x && r.pos.y == s.pos.y
    ensures r.intervalActive == s.intervalActive && r.singleKeyPressMovement == s.singleKeyPressMovement
    ensures r.key == s.key && r.capturedZoom == s.capturedZoom
  {
    s.(pos := s.pos.(z := ZoomTarget(s.pos.z, deltaY)))
  }

  /** One `moveCamera` call with the key and zoom the interval captured. */
  function AfterMove(s: Controller): (r: Controller)
    ensures r.pos == s.pos || OneStep(s.pos, r.pos)
    ensures r.pos.z == s.pos.z
    ensures r.intervalActive == (s.intervalActive && r.pos != s.pos)
    ensures r.pos != s.pos <==> Headroom(s.pos, s.key, s.capturedZoom) > 0.0
    ensures r.pos != s.pos ==> Step(s.pos, s.key, s.capturedZoom) == Some(r.pos)
    ensures r.singleKeyPressMovement == s.singleKeyPressMovement
    ensures r.key == s.key && r.capturedZoom == s.capturedZoom
  {
    match Step(s.pos, s.key, s.capturedZoom)
    case Some(q) => s.(pos := q)
    case None => s.(intervalActive := false)
  }

  /** One firing of the `setInterval` callback; nothing happens while no
      interval is live or while `singleKeyPressMovement` is cleared. */
  function AfterTick(s: Controller): (r: Controller)
    ensures !s.intervalActive || !s.singleKeyPressMovement ==> r == s
    ensures s.intervalActive && s.singleKeyPressMovement ==> r == AfterMove(s)
    ensures Consistent(s) ==> Consistent(r)
    ensures r.pos.z == s.pos.z && r.key == s.key && r.capturedZoom == s.capturedZoom
  {
    if s.intervalActive && s.singleKeyPressMovement then AfterMove(s) else s
  }

  /** `handleKeyDown` for a key event; `repeat` is the event's auto-repeat flag. */
  function AfterKeyDown(s: Controller, key: string, repeat: bool): (r: Controller)
    ensures r.pos.z == s.pos.z
    ensures Consistent(r)
    ensures repeat ==> r.pos == s.pos && !r.intervalActive && !r.singleKeyPressMovement
    ensures !repeat ==> r.intervalActive && r.singleKeyPressMovement
    ensures !repeat ==> r.key == key && r.capturedZoom == s.pos.z
    ensures !repeat ==> (r.pos != s.pos <==> Headroom(s.pos, key, s.pos.z) > 0.0)
    ensures !repeat && r.pos != s.pos ==> OneStep(s.pos, r.pos)
    ensures !repeat && r.pos != s.pos ==> Step(s.pos, key, s.pos.z) == Some(r.pos)
  {
    var cleared := s.(intervalActive := false);
    if repeat then cleared.(singleKeyPressMovement := false)
    else
      var armed := cleared.(singleKeyPressMovement := true, key := key, capturedZoom := s.pos.z);
      AfterMove(armed).(intervalActive := true)
  }

  /** `handleKeyUp`. */
  function AfterKeyUp(s: Controller): (r: Controller)
    ensures r.pos == s.pos && !r.intervalActive && !r.singleKeyPressMovement
    ensures r.key == s.key && r.capturedZoom == s.capturedZoom
  {
    s.(intervalActive := false, singleKeyPressMovement := false)
  }

  /** n successive firings of the interval with no other event between them. */
  function AfterTicks(s: Controller, n: nat): Controller
    decreases n
  {
    if n == 0 then s else AfterTicks(AfterTick(s), n - 1)
  }

  /** With no live interval, ticks change nothing at all. */
  lemma {:induction false} IdleTicksChangeNothing(s: Controller, n: nat)
    requires !s.intervalActive
    ensures AfterTicks(s, n) == s
    decreases n
  {
    if n > 0 {
      IdleTicksChangeNothing(AfterTick(s), n - 1);
    }
  }

  /** After key-up no later tick moves the camera. */
  lemma {:induction false} KeyUpStopsMovement(s: Controller, n: nat)
    ensures AfterTicks(AfterKeyUp(s), n) == AfterKeyUp(s)
    ensures AfterTicks(AfterKeyUp(s), n).pos == s.pos
  {
    IdleTicksChangeNothing(AfterKeyUp(s), n);
  }

  /** A repeated key-down moves nothing, now or on any later tick. */
  lemma {:induction false} RepeatStopsMovement(s: Controller, key: string, n: nat)
    ensures AfterTicks(AfterKeyDown(s, key, true), n).pos == s.pos
  {
    IdleTicksChangeNothing(AfterKeyDown(s, key, true), n);
  }

  /** Ticks never take the camera more than one step past the bounds that
      were captured at key-down. */
  lemma {:induction false} TicksStayWithinReach(s: Controller, n: nat)
    requires WithinReach(s.pos, s.capturedZoom)
    ensures WithinReach(AfterTicks(s, n).pos, AfterTicks(s, n).capturedZoom)
    ensures AfterTicks(s, n).pos.z == s.pos.z && AfterTicks(s, n).capturedZoom == s.capturedZoom
    decreases n
  {
    if n > 0 {
      TicksStayWithinReach(AfterTick(s), n - 1);
    }
  }

  /** A key-down from inside the pan region (for the current zoom) and any
      number of ticks after it leave the camera less than one step outside
      that region. */
  lemma {:induction false} PanOvershootBelowOneStep(s: Controller, key: string, n: nat)
    requires WithinBounds(s.pos, s.pos.z)
    ensures WithinReach(AfterTicks(AfterKeyDown(s, key, false), n).pos, s.pos.z)
  {
    var d := AfterKeyDown(s, key, false);
    assert WithinReach(d.pos, d.capturedZoom);
    TicksStayWithinReach(d, n);
  }

  /** While the guard keeps holding, every tick moves one step: after n ticks
      the interval is still live and the camera is n steps further on. */
  lemma {:induction false} PanProgress(s: Controller, n: nat)
    requires s.intervalActive && s.singleKeyPressMovement
    requires Headroom(s.pos, s.key, s.capturedZoom) > MoveSpeed * (n as real - 1.0)
    ensures AfterTicks(s, n).intervalActive
    ensures Headroom(AfterTicks(s, n).pos, s.key, s.capturedZoom)
            == Headroom(s.pos, s.key, s.capturedZoom) - MoveSpeed * n as real
    decreases n
  {
    if n > 0 {
      var t := AfterTick(s);
      assert t.pos != s.pos;
      PanProgress(t, n - 1);
    }
  }

  /** A pan that starts at most n steps from its bound has stopped the
      interval after n + 1 ticks: continuous movement ends at the bound. */
  lemma {:induction false} PanStops(s: Controller, n: nat)
    requires s.singleKeyPressMovement
    requires Headroom(s.pos, s.key, s.capturedZoom) <= MoveSpeed * n as real
    ensures !AfterTicks(s, n + 1).intervalActive
    decreases n
  {
    var t := AfterTick(s);
    if !s.intervalActive {
      IdleTicksChangeNothing(s, n + 1);
    } else if t.pos == s.pos {
      IdleTicksChangeNothing(t, n);
    } else {
      PanStops(t, n - 1);
    }
  }

  /** A non-repeat key-down with a key that is not an arrow (what every
      click on the page amounts to) cancels any running pan, takes no step,
      and arms a timer whose first tick stops it. */
  lemma KeyDownWithoutArrowStopsAtFirstTick(s: Controller, key: string)
    requires !IsArrowKey(key)
    ensures AfterKeyDown(s, key, false).pos == s.pos
    ensures AfterKeyDown(s, key, false).intervalActive
    ensures AfterTicks(AfterKeyDown(s, key, false), 1).pos == s.pos
    ensures !AfterTicks(AfterKeyDown(s, key, false), 1).intervalActive
  {
    var d := AfterKeyDown(s, key, false);
    assert AfterTicks(d, 1) == AfterTicks(AfterTick(d), 0);
  }

  /** Wheel zoom and the timer commute: the interval pans with the zoom it
      captured at key-down and never re-reads the camera's z. */
  lemma ZoomDoesNotAffectTick(s: Controller, deltaY: real)
    ensures AfterTick(AfterZoom(s, deltaY)) == AfterZoom(AfterTick(s), deltaY)
  {
  }

  lemma ResetIdempotent(s: Controller)
    ensures AfterReset(AfterReset(s)) == AfterReset(s)
  {
  }

  /** The mutable controller. `Tick` is the body of the repeating timer;
      `MoveCamera` is the closure both key-down and the timer call. */
  class Camera {
    var x: real
    var y: real
    var z: real
    var intervalActive: bool
    var singleKeyPressMovement: bool
    var heldKey: string
    var heldZoom: real

    function State(): Controller
      reads this
    {
      Controller(Position(x, y, z), intervalActive, singleKeyPressMovement, heldKey, heldZoom)
    }

    ghost predicate Valid()
      reads this
    {
      Consistent(State())
    }

    /** The camera starts at the default position with no timer running; the
        captured key and zoom are placeholders until the first key-down. */
    constructor ()
      ensures Valid()
      ensures State() == Controller(DefaultPosition, false, false, "", MaxZoom)
    {
      x, y, z := 0.0, 0.0, 15.0;
      intervalActive, singleKeyPressMovement := false, false;
      heldKey, heldZoom := "", MaxZoom;
    }

    method ResetCamera()
      requires Valid()
      modifies this`x, this`y, this`z
      ensures Valid()
      ensures State() == AfterReset(old(State()))
    {
      x, y, z := 0.0, 0.0, 15.0;
    }

    method HandleZoom(deltaY: real)
      requires Valid()
      modifies this`z
      ensures Valid()
      ensures State() == AfterZoom(old(State()), deltaY)
    {
      var zoomAmount := deltaY * ZoomSpeed;
      var newZoom := z - zoomAmount;
      z := Clamp(newZoom, MinZoom, MaxZoom);
    }

    method MoveCamera()
      modifies this`x, this`y, this`intervalActive
      ensures State() == AfterMove(old(State()))
    {
      ArrowKeysDistinct();
      var maxLeft, maxRight := DefaultMaxSide, DefaultMaxSide;
      if heldZoom < ZoomedInBelow {
        maxLeft, maxRight := ZoomedMaxSide, ZoomedMaxSide;
      }
      if heldKey == ArrowLeft && x > -maxLeft {
        x := x - MoveSpeed;
      } else if heldKey == ArrowRight && x < maxRight {
        x := x + MoveSpeed;
      } else if heldKey == ArrowUp && heldZoom < ZoomedInBelow && y < MaxMovement {
        y := y + MoveSpeed;
      } else if heldKey == ArrowDown && heldZoom < ZoomedInBelow && y > -MaxMovement {
        y := y - MoveSpeed;
      } else {
        intervalActive := false;
      }
    }

    method HandleKeyDown(key: string, repeat: bool)
      requires Valid()
      modifies this
      ensures Valid()
      ensures State() == AfterKeyDown(old(State()), key, repeat)
    {
      var currentZoom := z;
      intervalActive := false;
      if repeat {
        singleKeyPressMovement := false;
        return;
      }
      singleKeyPressMovement := true;
      heldKey, heldZoom := key, currentZoom;
      MoveCamera();
      intervalActive := true;
    }

    method Tick()
      requires Valid()
      modifies this`x, this`y, this`intervalActive
      ensures Valid()
      ensures State() == AfterTick(old(State()))
    {
      if intervalActive && singleKeyPressMovement {
        MoveCamera();
      }
    }

    method HandleKeyUp()
      requires Valid()
      modifies this`intervalActive, this`singleKeyPressMovement
      ensures Valid()
      ensures State() == AfterKeyUp(old(State()))
    {
      intervalActive := false;
      singleKeyPressMovement := false;
    }

    /** `handleClick(key)` acts exactly as a non-repeat key-down with that
        key. The page only ever passes it a mouse event, never a key name;
        see `KeyDownWithoutArrowStopsAtFirstTick` for what such a call does. */
    method HandleClick(key: string)
      requires Valid()
      modifies this
      ensures Valid()
      ensures State() == AfterKeyDown(old(State()), key, false)
    {
      HandleKeyDown(key, false);
    }
  }
}
