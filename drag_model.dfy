/**
 * The carousel track's drag state as a value, and one function per event
 * handler of script.js:33-141. The browser is abstracted away: a pointer
 * position is the event's `pageX` minus the track's `offsetLeft`, a timestamp
 * is the `Date.now()` reading, and geometry is passed in as numbers.
 */
module DragModel {
  import opened Wrappers
  import Snap
  import Navigation

  /** The track's inline `scroll-behavior`: not yet set, `auto` or `smooth`. */
  datatype ScrollBehavior = Unset | Auto | Smooth

  const MouseMultiplier: real := 2.0
  const TouchMultiplier: real := 1.2
  /** A touch start less than this many milliseconds after the last accepted one is ignored. */
  const DebounceMs: int := 100
  /** Release velocity (pixels per touchmove) that must be exceeded for momentum. */
  const MomentumThreshold: real := 2.0
  const MomentumFactor: real := 8.0

  /**
   * The module-level variables of the drag code, plus the parts of the track
   * they drive: `offset` is `track.scrollLeft`, `behavior` its inline
   * scroll-behavior, `pendingSnaps` the settle timers scheduled and not yet
   * fired, `target` the last panel passed to `scrollIntoView`.
   */
  datatype Track = Track(
    startX: real,
    scrollLeft: real,
    isDown: bool,
    isScrolling: bool,
    velocity: real,
    lastScrollLeft: real,
    lastTouchTime: int,
    offset: real,
    behavior: ScrollBehavior,
    pendingSnaps: nat,
    target: Option<nat>)

  /** The state at page load, with the track scrolled to `offset`. */
  function Initial(offset: real): (s: Track)
    ensures Inv(s)
    ensures !s.isDown && !s.isScrolling && s.pendingSnaps == 0
  {
    Track(0.0, 0.0, false, false, 0.0, 0.0, 0, offset, Unset, 0, None)
  }

  /**
   * What every run keeps: velocity is nonzero only inside a touch session,
   * and smooth scrolling stays switched off for the whole touch session.
   */
  predicate Inv(s: Track) {
    && (s.isScrolling ==> s.behavior == Auto)
    && (!s.isScrolling ==> s.velocity == 0.0)
  }

  // ---- mouse (script.js:37-60) ----

  function OnMouseDown(s: Track, x: real): Track {
    s.(isDown := true, startX := x, scrollLeft := s.offset)
  }

  /** mouseleave and mouseup do the same thing. */
  function OnMouseRelease(s: Track): Track {
    s.(isDown := false)
  }

  function OnMouseMove(s: Track, x: real): Track {
    if !s.isDown then s
    else s.(offset := s.scrollLeft - (x - s.startX) * MouseMultiplier)
  }

  // ---- touch (script.js:69-135) ----

  predicate TouchAccepted(s: Track, now: int) {
    now - s.lastTouchTime >= DebounceMs
  }

  function OnTouchStart(s: Track, x: real, now: int): Track {
    if !TouchAccepted(s, now) then s
    else s.(startX := x, scrollLeft := s.offset, lastScrollLeft := s.offset,
            isScrolling := true, velocity := 0.0, behavior := Auto, lastTouchTime := now)
  }

  /** `!startX || !isScrolling`: a session anchored at x == 0 is treated as no session. */
  predicate TouchMoveIgnored(s: Track) {
    s.startX == 0.0 || !s.isScrolling
  }

  function OnTouchMove(s: Track, x: real): Track {
    if TouchMoveIgnored(s) then s
    else
      var newScrollLeft := s.scrollLeft - (x - s.startX) * TouchMultiplier;
      s.(velocity := newScrollLeft - s.lastScrollLeft, lastScrollLeft := newScrollLeft,
         offset := newScrollLeft)
  }

  function Momentum(velocity: real): real {
    if Snap.Abs(velocity) > MomentumThreshold then velocity * MomentumFactor else 0.0
  }

  function OnTouchEnd(s: Track): Track {
    if !s.isScrolling then s
    else s.(behavior := Smooth, offset := s.offset + Momentum(s.velocity),
            pendingSnaps := s.pendingSnaps + 1,
            startX := 0.0, isScrolling := false, velocity := 0.0)
  }

  /** The 100 ms settle timer: scroll the panel nearest the track centre into view. */
  function OnSettle(s: Track, panels: seq<Snap.PanelRect>, trackLeft: real, trackWidth: real): Track
    requires s.pendingSnaps > 0
  {
    var chosen := Snap.Nearest(panels, trackLeft + trackWidth / 2.0);
    s.(pendingSnaps := s.pendingSnaps - 1,
       target := if chosen.Some? then chosen else s.target)
  }

  // ---- discrete navigation (script.js:16-30, 138-141) ----

  /** `scrollByPanel(dir)`, with the first panel's width already measured. */
  function OnAdvance(s: Track, dir: int, panelWidth: real): Track {
    s.(offset := s.offset + Navigation.StepAmount(dir, panelWidth))
  }

  function OnScrollTo(s: Track, index: int, panelCount: nat): Track {
    if Navigation.InRange(index, panelCount) then s.(target := Some(index)) else s
  }

  function OnKey(s: Track, key: string, panelWidth: real): Track {
    match Navigation.KeyDirection(key)
    case Some(dir) => OnAdvance(s, dir, panelWidth)
    case None => s
  }

  // ---- runs ----

  datatype Event =
    | MouseDown(x: real)
    | MouseLeave
    | MouseUp
    | MouseMove(x: real)
    | TouchStart(x: real, now: int)
    | TouchMove(x: real)
    | TouchEnd
    | SettleTimer(panels: seq<Snap.PanelRect>, trackLeft: real, trackWidth: real)
    | Prev(panelWidth: real)
    | Next(panelWidth: real)
    | Key(key: string, panelWidth: real)
    | ScrollTo(index: int, panelCount: nat)

  /** One event. A settle tick with no timer pending cannot happen; it leaves the state alone. */
  function Apply(s: Track, e: Event): Track {
    match e
    case MouseDown(x) => OnMouseDown(s, x)
    case MouseLeave => OnMouseRelease(s)
    case MouseUp => OnMouseRelease(s)
    case MouseMove(x) => OnMouseMove(s, x)
    case TouchStart(x, now) => OnTouchStart(s, x, now)
    case TouchMove(x) => OnTouchMove(s, x)
    case TouchEnd => OnTouchEnd(s)
    case SettleTimer(panels, l, w) => if s.pendingSnaps > 0 then OnSettle(s, panels, l, w) else s
    case Prev(w) => OnAdvance(s, -1, w)
    case Next(w) => OnAdvance(s, 1, w)
    case Key(k, w) => OnKey(s, k, w)
    case ScrollTo(i, n) => OnScrollTo(s, i, n)
  }

  function Run(s: Track, events: seq<Event>): Track
    decreases |events|
  {
    if events == [] then s else Run(Apply(s, events[0]), events[1..])
  }

  // ---- properties of single events ----

  /** While the mouse is down the offset follows the pointer at twice its displacement; otherwise nothing happens. */
  lemma MouseMoveFollowsPointer(s: Track, x: real)
    ensures s.isDown ==> OnMouseMove(s, x) == s.(offset := s.scrollLeft - (x - s.startX) * 2.0)
    ensures !s.isDown ==> OnMouseMove(s, x) == s
  {
  }

  /** A mouse move is absolute, not cumulative: only the latest pointer position matters. */
  lemma MouseMoveIsAbsolute(s: Track, a: real, b: real)
    ensures OnMouseMove(OnMouseMove(s, a), b) == OnMouseMove(s, b)
  {
  }

  /** Pressing at `x0`, dragging anywhere and coming back to `x0` restores the offset at the press. */
  lemma MouseDragBackRestoresOffset(s: Track, x0: real, x: real)
    ensures OnMouseMove(OnMouseMove(OnMouseDown(s, x0), x), x0).offset == s.offset
  {
  }

  /**
   * mouseup and mouseleave clear `isDown` and nothing else: a touch session in
   * progress survives them, and later mouse moves are ignored.
   */
  lemma MouseReleaseClearsOnlyIsDown(s: Track, x: real)
    ensures !OnMouseRelease(s).isDown
    ensures OnMouseRelease(s).(isDown := s.isDown) == s
    ensures OnMouseMove(OnMouseRelease(s), x) == OnMouseRelease(s)
  {
  }

  /**
   * A touch start within 100 ms of the last accepted one changes nothing, not
   * even the timestamp; an accepted one anchors a new session at the current
   * offset with zero velocity, suspends smooth scrolling and records `now`.
   */
  lemma TouchStartDebounce(s: Track, x: real, now: int)
    ensures now - s.lastTouchTime < 100 ==> OnTouchStart(s, x, now) == s
    ensures now - s.lastTouchTime >= 100 ==>
      var r := OnTouchStart(s, x, now);
      && r.isScrolling && r.velocity == 0.0
      && r.startX == x && r.scrollLeft == s.offset && r.lastScrollLeft == s.offset
      && r.lastTouchTime == now && r.behavior == Auto
      && r.offset == s.offset && r.isDown == s.isDown
      && r.pendingSnaps == s.pendingSnaps && r.target == s.target
  {
  }

  /** After an accepted touch start, a second one less than 100 ms later is ignored. */
  lemma RapidSecondTouchIgnored(s: Track, x1: real, t1: int, x2: real, t2: int)
    requires TouchAccepted(s, t1)
    requires t2 - t1 < DebounceMs
    ensures OnTouchStart(OnTouchStart(s, x1, t1), x2, t2) == OnTouchStart(s, x1, t1)
  {
  }

  /**
   * The debounce window counts from the last ACCEPTED touch start: a rejected
   * one does not extend it, so a later start is judged as if it had not happened.
   */
  lemma RejectedTouchDoesNotExtendWindow(s: Track, x1: real, t1: int, x2: real, t2: int)
    requires !TouchAccepted(s, t1)
    ensures OnTouchStart(OnTouchStart(s, x1, t1), x2, t2) == OnTouchStart(s, x2, t2)
  {
  }

  /**
   * An accepted touch move puts the offset at the anchor minus 1.2 times the
   * finger's displacement, and velocity is the change from the previous
   * computed offset.
   */
  lemma TouchMoveTracksVelocity(s: Track, x: real)
    ensures TouchMoveIgnored(s) ==> OnTouchMove(s, x) == s
    ensures !TouchMoveIgnored(s) ==>
      var r := OnTouchMove(s, x);
      && r.offset == s.scrollLeft - (x - s.startX) * 1.2
      && r.velocity == r.offset - s.lastScrollLeft
      && r.lastScrollLeft == r.offset
      && r == s.(offset := r.offset, velocity := r.velocity, lastScrollLeft := r.lastScrollLeft)
  {
  }

  /** Two accepted moves in a row: velocity is the difference of the two computed offsets. */
  lemma VelocityOfSuccessiveMoves(s: Track, a: real, b: real)
    requires !TouchMoveIgnored(s)
    ensures OnTouchMove(OnTouchMove(s, a), b).velocity ==
            OnTouchMove(OnTouchMove(s, a), b).offset - OnTouchMove(s, a).offset
  {
  }

  /** A touch session anchored exactly at x == 0 never moves the track. */
  lemma TouchAtZeroNeverDrags(s: Track, now: int, x: real)
    requires TouchAccepted(s, now)
    ensures OnTouchMove(OnTouchStart(s, 0.0, now), x) == OnTouchStart(s, 0.0, now)
  {
  }

  /**
   * The anchor is shared by mouse and touch: a mouse press during a touch
   * session re-anchors the touch drag at the press.
   */
  lemma MousePressReanchorsTouchDrag(s: Track, x1: real, now: int, x2: real, x3: real)
    requires TouchAccepted(s, now)
    requires x2 != 0.0
    ensures
      var pressed := OnMouseDown(OnTouchStart(s, x1, now), x2);
      OnTouchMove(pressed, x3).offset == s.offset - (x3 - x2) * TouchMultiplier
  {
  }

  /**
   * touchend outside a session does nothing. Ending a session restores smooth
   * scrolling, adds `velocity * 8` only when |velocity| > 2, schedules one
   * settle and clears the anchor, the session flag and the velocity; it does
   * not touch `lastTouchTime`.
   */
  lemma TouchEndMomentum(s: Track)
    ensures !s.isScrolling ==> OnTouchEnd(s) == s
    ensures s.isScrolling ==>
      var r := OnTouchEnd(s);
      && r.offset == (if Snap.Abs(s.velocity) > 2.0 then s.offset + s.velocity * 8.0 else s.offset)
      && r.startX == 0.0 && !r.isScrolling && r.velocity == 0.0
      && r.behavior == Smooth && r.pendingSnaps == s.pendingSnaps + 1
      && r.lastTouchTime == s.lastTouchTime
      && r.(offset := s.offset, behavior := s.behavior, pendingSnaps := s.pendingSnaps,
            startX := s.startX, isScrolling := true, velocity := s.velocity) == s
  {
  }

  /** Whatever came before, after a touchend no session is running and velocity is zero. */
  lemma TouchEndEndsSession(s: Track)
    requires Inv(s)
    ensures !OnTouchEnd(s).isScrolling && OnTouchEnd(s).velocity == 0.0
  {
  }

  /**
   * The settle timer targets the first panel whose centre is nearest the
   * track centre; with no panels it targets nothing new.
   */
  lemma SettleSnapsToNearest(s: Track, panels: seq<Snap.PanelRect>, trackLeft: real, trackWidth: real)
    requires s.pendingSnaps > 0
    ensures
      var r := OnSettle(s, panels, trackLeft, trackWidth);
      && r.pendingSnaps == s.pendingSnaps - 1
      && r.(pendingSnaps := s.pendingSnaps, target := s.target) == s
      && (|panels| == 0 ==> r.target == s.target)
      && (|panels| > 0 ==> r.target.Some? && Snap.IsFirstNearest(panels, trackLeft + trackWidth / 2.0, r.target.value))
  {
    Snap.NearestIsFirstNearest(panels, trackLeft + trackWidth / 2.0);
  }

  /** Next then prev with the same panel width returns the track to where it was. */
  lemma NextThenPrevRoundTrip(s: Track, panelWidth: real)
    ensures Apply(Apply(s, Next(panelWidth)), Prev(panelWidth)) == s
  {
  }

  /** ArrowRight acts as next, ArrowLeft as prev, any other key does nothing. */
  lemma KeyNavigation(s: Track, key: string, panelWidth: real)
    ensures key == "ArrowRight" ==> OnKey(s, key, panelWidth) == Apply(s, Next(panelWidth))
    ensures key == "ArrowLeft" ==> OnKey(s, key, panelWidth) == Apply(s, Prev(panelWidth))
    ensures key != "ArrowRight" && key != "ArrowLeft" ==> OnKey(s, key, panelWidth) == s
  {
  }

  /** `scrollToPanel(i)` targets panel `i` when it exists and does nothing otherwise. */
  lemma ScrollToOnlyInRange(s: Track, index: int, panelCount: nat)
    ensures 0 <= index < panelCount ==> OnScrollTo(s, index, panelCount) == s.(target := Some(index))
    ensures !(0 <= index < panelCount) ==> OnScrollTo(s, index, panelCount) == s
  {
  }

  // ---- properties of runs ----

  lemma ApplyPreservesInv(s: Track, e: Event)
    requires Inv(s)
    ensures Inv(Apply(s, e))
  {
  }

  /** Every sequence of events keeps the invariant. */
  lemma {:induction false} RunPreservesInv(s: Track, events: seq<Event>)
    requires Inv(s)
    ensures Inv(Run(s, events))
    decreases |events|
  {
    if events != [] {
      ApplyPreservesInv(s, events[0]);
      RunPreservesInv(Apply(s, events[0]), events[1..]);
    }
  }

  /**
   * `lastTouchTime` only moves forward, and only by an accepted touch start,
   * which moves it by at least the debounce window.
   */
  lemma ApplyAdvancesTouchTime(s: Track, e: Event)
    ensures Apply(s, e).lastTouchTime == s.lastTouchTime ||
            Apply(s, e).lastTouchTime >= s.lastTouchTime + DebounceMs
  {
  }

  lemma {:induction false} RunNeverRewindsTouchTime(s: Track, events: seq<Event>)
    ensures Run(s, events).lastTouchTime >= s.lastTouchTime
    decreases |events|
  {
    if events != [] {
      ApplyAdvancesTouchTime(s, events[0]);
      RunNeverRewindsTouchTime(Apply(s, events[0]), events[1..]);
    }
  }
}
