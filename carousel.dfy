/**
 * The carousel's drag handlers as they run: the module-level variables of
 * script.js:33-67 become fields of one object, `offset` is the track's
 * `scrollLeft`, and each event listener is a method that updates the fields
 * in place. Every method is specified by the matching function of DragModel,
 * whose properties are proved there.
 */
module CarouselTrack {
  import opened Wrappers
  import Snap
  import Navigation
  import opened DragModel

  class Carousel {
    var startX: real
    var scrollLeft: real
    var isDown: bool
    var isScrolling: bool
    var velocity: real
    var lastScrollLeft: real
    var lastTouchTime: int
    var offset: real
    var behavior: ScrollBehavior
    var pendingSnaps: nat
    var target: Option<nat>

    /** The fields read as one DragModel state. */
    function State(): Track
      reads this
    {
      Track(startX, scrollLeft, isDown, isScrolling, velocity, lastScrollLeft,
            lastTouchTime, offset, behavior, pendingSnaps, target)
    }

    /** The script's initial values: all zero and false, with the track at `initialOffset`. */
    constructor (initialOffset: real)
      ensures State() == Initial(initialOffset)
    {
      startX, scrollLeft, isDown := 0.0, 0.0, false;
      isScrolling, velocity, lastScrollLeft, lastTouchTime := false, 0.0, 0.0, 0;
      offset, behavior, pendingSnaps, target := initialOffset, Unset, 0, None;
    }

    method MouseDown(x: real)
      modifies this
      ensures State() == OnMouseDown(old(State()), x)
    {
      isDown := true;
      startX := x;
      scrollLeft := offset;
    }

    method MouseLeave()
      modifies this
      ensures State() == OnMouseRelease(old(State()))
    {
      isDown := false;
    }

    method MouseUp()
      modifies this
      ensures State() == OnMouseRelease(old(State()))
    {
      isDown := false;
    }

    method MouseMove(x: real)
      modifies this
      ensures State() == OnMouseMove(old(State()), x)
    {
      if !isDown {
        return;
      }
      var walk := (x - startX) * MouseMultiplier;
      offset := scrollLeft - walk;
    }

    method TouchStart(x: real, now: int)
      modifies this
      ensures State() == OnTouchStart(old(State()), x, now)
    {
      if now - lastTouchTime < DebounceMs {
        return;
      }
      startX := x;
      scrollLeft := offset;
      lastScrollLeft := offset;
      isScrolling := true;
      velocity := 0.0;
      behavior := Auto;
      lastTouchTime := now;
    }

    method TouchMove(x: real)
      modifies this
      ensures State() == OnTouchMove(old(State()), x)
    {
      if startX == 0.0 || !isScrolling {
        return;
      }
      var walk := (x - startX) * TouchMultiplier;
      var newScrollLeft := scrollLeft - walk;
      velocity := newScrollLeft - lastScrollLeft;
      lastScrollLeft := newScrollLeft;
      offset := newScrollLeft;
    }

    /** Ends a touch session and schedules the settle timer (fired later by Settle). */
    method TouchEnd()
      modifies this
      ensures State() == OnTouchEnd(old(State()))
    {
      if !isScrolling {
        return;
      }
      behavior := Smooth;
      if Snap.Abs(velocity) > MomentumThreshold {
        var momentum := velocity * MomentumFactor;
        offset := offset + momentum;
      }
      pendingSnaps := pendingSnaps + 1;
      startX := 0.0;
      isScrolling := false;
      velocity := 0.0;
    }

    /**
     * The settle timer fires: the panel rectangles and the track rectangle are
     * measured at this moment and passed in.
     */
    method Settle(panels: seq<Snap.PanelRect>, trackLeft: real, trackWidth: real)
      requires pendingSnaps > 0
      modifies this
      ensures State() == OnSettle(old(State()), panels, trackLeft, trackWidth)
    {
      pendingSnaps := pendingSnaps - 1;
      var trackCenter := trackLeft + trackWidth / 2.0;
      var closest := Snap.ClosestPanel(panels, trackCenter);
      if closest.Some? {
        target := closest;
      }
    }

    /**
     * `scrollByPanel(dir)`: the first panel's width plus the gap, times `dir`.
     * script.js reads the first panel without checking that there is one.
     */
    method ScrollByPanel(dir: int, panels: seq<Snap.PanelRect>)
      requires |panels| > 0
      modifies this
      ensures State() == OnAdvance(old(State()), dir, panels[0].width)
    {
      var scrollAmount := Navigation.StepAmount(dir, panels[0].width);
      offset := offset + scrollAmount;
    }

    method ScrollToPanel(index: int, panelCount: nat)
      modifies this
      ensures State() == OnScrollTo(old(State()), index, panelCount)
    {
      if 0 <= index < panelCount {
        target := Some(index);
      }
    }

    method PrevClick(panels: seq<Snap.PanelRect>)
      requires |panels| > 0
      modifies this
      ensures State() == Apply(old(State()), Prev(panels[0].width))
    {
      ScrollByPanel(-1, panels);
    }

    method NextClick(panels: seq<Snap.PanelRect>)
      requires |panels| > 0
      modifies this
      ensures State() == Apply(old(State()), Next(panels[0].width))
    {
      ScrollByPanel(1, panels);
    }

    /** The carousel's keydown listener; only an arrow key measures a panel. */
    method KeyDown(key: string, panels: seq<Snap.PanelRect>)
      requires key == "ArrowRight" || key == "ArrowLeft" ==> |panels| > 0
      modifies this
      ensures |panels| > 0 ==> State() == OnKey(old(State()), key, panels[0].width)
      ensures key != "ArrowRight" && key != "ArrowLeft" ==> State() == old(State())
    {
      if key == "ArrowRight" {
        ScrollByPanel(1, panels);
      }
      if key == "ArrowLeft" {
        ScrollByPanel(-1, panels);
      }
    }
  }
}
