/**
 The touch handling of src/hooks/use-mobile-navigation.ts: a touch start is
 remembered, and the matching touch end is classified as a swipe, a tap or
 neither, which decides the callback it invokes. `Date.now()` and the
 touch coordinates are parameters.
 */
module MobileNavigation {
  import opened Wrappers

  /** The third of the screen the touch ended on. */
  datatype Area = Left | Middle | Right

  /** The three callbacks the hook is given. */
  datatype Callback = OnPrevious | OnNext | OnTogglePlay

  /** The remembered touch start: client coordinates and time in ms. */
  datatype TouchPoint = TouchPoint(x: real, y: real, time: int)

  const TapMaxMs: int := 200
  const TapMaxMove: real := 30.0
  const SwipeMinMove: real := 50.0

  function Abs(v: real): (r: real)
    ensures r >= 0.0 && (r == v || r == -v)
  {
    if v < 0.0 then -v else v
  }

  /** Quick and nearly still. */
  predicate IsTap(dx: real, dy: real, dt: int) {
    dt < TapMaxMs && Abs(dx) < TapMaxMove && Abs(dy) < TapMaxMove
  }

  /** Long and mostly horizontal. */
  predicate IsSwipe(dx: real, dy: real) {
    Abs(dx) > SwipeMinMove && Abs(dx) > Abs(dy)
  }

  /** The callback a finished gesture invokes, if any: a swipe to the right
      goes back and one to the left goes on; a tap acts by area; anything
      else is ignored. */
  function Decide(dx: real, dy: real, dt: int, area: Area): (r: Option<Callback>)
    ensures IsSwipe(dx, dy) ==> r == Some(if dx > 0.0 then OnPrevious else OnNext)
    ensures IsTap(dx, dy, dt) && area == Left ==> r == Some(OnPrevious)
    ensures IsTap(dx, dy, dt) && area == Right ==> r == Some(OnNext)
    ensures IsTap(dx, dy, dt) && area == Middle ==> r == Some(OnTogglePlay)
    ensures r == None <==> !IsSwipe(dx, dy) && !IsTap(dx, dy, dt)
  {
    TapExcludesSwipe(dx, dy, dt);
    if IsSwipe(dx, dy) then
      if dx > SwipeMinMove then Some(OnPrevious)
      else if dx < -SwipeMinMove then Some(OnNext)
      else None
    else if IsTap(dx, dy, dt) then
      match area
      case Left => Some(OnPrevious)
      case Right => Some(OnNext)
      case Middle => Some(OnTogglePlay)
    else None
  }

  /** A tap moves less than 30 px, a swipe more than 50 px: never both. */
  lemma TapExcludesSwipe(dx: real, dy: real, dt: int)
    ensures !(IsTap(dx, dy, dt) && IsSwipe(dx, dy))
  {
  }

  /** Gestures that are neither: a slow touch that hardly moves, and a
      horizontal movement between the two thresholds. */
  lemma IgnoredGestures(dx: real, dy: real, dt: int, area: Area)
    ensures dt >= TapMaxMs && Abs(dx) <= SwipeMinMove ==> Decide(dx, dy, dt, area) == None
    ensures TapMaxMove <= Abs(dx) <= SwipeMinMove ==> Decide(dx, dy, dt, area) == None
  {
  }

  /** Worked cases: a short nearly-still touch on the right third, a fast
      leftward swipe, and a slow touch that hardly moved. */
  lemma ClassificationExamples(area: Area)
    ensures Decide(5.0, 2.0, 150, Right) == Some(OnNext)
    ensures Decide(-80.0, 0.0, 400, area) == Some(OnNext)
    ensures Decide(80.0, -10.0, 90, area) == Some(OnPrevious)
    ensures Decide(5.0, 5.0, 500, area) == None
  {
  }

  /** The hook's one piece of state, the pending touch start. */
  class TouchNavigator {
    var touchStart: Option<TouchPoint>

    constructor ()
      ensures touchStart == None
    {
      touchStart := None;
    }

    /** `handleTouchStart`: remember where and when the touch began. */
    method HandleTouchStart(x: real, y: real, now: int)
      modifies this
      ensures touchStart == Some(TouchPoint(x, y, now))
    {
      touchStart := Some(TouchPoint(x, y, now));
    }

    /** `handleTouchEnd`: without a remembered start nothing happens;
        otherwise the gesture is classified, at most one callback is
        returned for invocation, and the start is forgotten. */
    method HandleTouchEnd(x: real, y: real, now: int, area: Area) returns (callback: Option<Callback>)
      modifies this
      ensures touchStart == None
      ensures old(touchStart) == None ==> callback == None
      ensures old(touchStart).Some? ==>
                var start := old(touchStart).value;
                callback == Decide(x - start.x, y - start.y, now - start.time, area)
    {
      if touchStart == None {
        return None;
      }
      var start := touchStart.value;
      var deltaX := x - start.x;
      var deltaY := y - start.y;
      var timeDiff := now - start.time;
      var isTap := timeDiff < TapMaxMs && Abs(deltaX) < TapMaxMove && Abs(deltaY) < TapMaxMove;
      var isSwipe := Abs(deltaX) > SwipeMinMove && Abs(deltaX) > Abs(deltaY);
      callback := None;
      if isSwipe {
        if deltaX > SwipeMinMove {
          callback := Some(OnPrevious);
        } else if deltaX < -SwipeMinMove {
          callback := Some(OnNext);
        }
      } else if isTap {
        if area == Left {
          callback := Some(OnPrevious);
        } else if area == Right {
          callback := Some(OnNext);
        } else if area == Middle {
          callback := Some(OnTogglePlay);
        }
      }
      touchStart := None;
    }
  }
}
