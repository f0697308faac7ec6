/**
 * Snap-to-nearest-panel selection, run by the settle timer after a touch drag
 * ends (script.js:108-129). Panel and track geometry are plain numbers here:
 * each panel is the `left` and `width` of its bounding rectangle.
 */
module Snap {
  import opened Wrappers

  datatype PanelRect = PanelRect(left: real, width: real)

  function Center(p: PanelRect): real {
    p.left + p.width / 2.0
  }

  function Abs(x: real): real {
    if x < 0.0 then -x else x
  }

  /** Horizontal distance between a panel's centre and the track's centre. */
  function Distance(p: PanelRect, trackCenter: real): real {
    Abs(Center(p) - trackCenter)
  }

  /**
   * Panel `i` is at minimal distance from the centre, and every panel before
   * it is strictly farther away: the first of the tied minima.
   */
  ghost predicate IsFirstNearest(panels: seq<PanelRect>, trackCenter: real, i: nat) {
    && i < |panels|
    && (forall j :: 0 <= j < |panels| ==> Distance(panels[i], trackCenter) <= Distance(panels[j], trackCenter))
    && (forall j :: 0 <= j < i ==> Distance(panels[j], trackCenter) > Distance(panels[i], trackCenter))
  }

  /**
   * The panel a left-to-right scan with a strict `<` ends on: the last panel
   * replaces the winner of the prefix only when it is strictly closer.
   */
  function Nearest(panels: seq<PanelRect>, trackCenter: real): (r: Option<nat>)
    ensures r.None? <==> |panels| == 0
    ensures r.Some? ==> r.value < |panels|
  {
    if |panels| == 0 then None
    else
      var k := |panels| - 1;
      match Nearest(panels[..k], trackCenter)
      case None => Some(k)
      case Some(j) =>
        if Distance(panels[k], trackCenter) < Distance(panels[j], trackCenter) then Some(k) else Some(j)
  }

  /** Nearest picks exactly the first panel of minimal distance, and nothing when there is no panel. */
  lemma {:induction false} NearestIsFirstNearest(panels: seq<PanelRect>, trackCenter: real)
    ensures |panels| > 0 ==> Nearest(panels, trackCenter).Some? && IsFirstNearest(panels, trackCenter, Nearest(panels, trackCenter).value)
    ensures forall i: nat :: IsFirstNearest(panels, trackCenter, i) ==> Nearest(panels, trackCenter) == Some(i)
  {
    if |panels| > 0 {
      var k := |panels| - 1;
      var prefix := panels[..k];
      NearestIsFirstNearest(prefix, trackCenter);
      var r := Nearest(panels, trackCenter).value;
      if k > 0 {
        var j := Nearest(prefix, trackCenter).value;
        assert forall m :: 0 <= m < k ==> prefix[m] == panels[m];
        assert IsFirstNearest(prefix, trackCenter, j);
      }
      assert IsFirstNearest(panels, trackCenter, r);
    }
  }

  /**
   * The settle callback's scan: visit the panels in document order and keep
   * the first one whose distance is strictly below the best seen so far.
   * Before any panel is seen the best distance is Infinity, so the first panel
   * is always taken; `closest.None?` stands for that initial state.
   */
  method ClosestPanel(panels: seq<PanelRect>, trackCenter: real) returns (closest: Option<nat>)
    ensures closest == Nearest(panels, trackCenter)
    ensures closest.None? <==> |panels| == 0
    ensures closest.Some? ==> IsFirstNearest(panels, trackCenter, closest.value)
  {
    closest := None;
    var closestDistance := 0.0;
    for i := 0 to |panels|
      invariant closest == Nearest(panels[..i], trackCenter)
      invariant closest.Some? ==> closest.value < i && closestDistance == Distance(panels[closest.value], trackCenter)
    {
      var distance := Distance(panels[i], trackCenter);
      assert panels[..i+1][..i] == panels[..i];
      if closest.None? || distance < closestDistance {
        closestDistance := distance;
        closest := Some(i);
      }
    }
    assert panels[..|panels|] == panels;
    NearestIsFirstNearest(panels, trackCenter);
  }
}
