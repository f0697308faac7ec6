/**
 * Discrete carousel navigation: the prev/next buttons and the arrow keys
 * (script.js:16-28, 29-30, 138-141).
 */
module Navigation {
  import opened Wrappers

  /** The fixed gap between two panels that one step adds to a panel's width. */
  const PanelGap: real := 22.0

  /** How far one press of prev (`dir == -1`) or next (`dir == 1`) scrolls the track. */
  function StepAmount(dir: int, panelWidth: real): real {
    (dir as real) * (panelWidth + PanelGap)
  }

  /** Next scrolls by one panel plus the gap; prev scrolls by exactly the opposite amount. */
  lemma StepsAreOpposite(panelWidth: real)
    ensures StepAmount(1, panelWidth) == panelWidth + PanelGap
    ensures StepAmount(-1, panelWidth) == -StepAmount(1, panelWidth)
    ensures StepAmount(1, panelWidth) + StepAmount(-1, panelWidth) == 0.0
  {
  }

  /** The carousel's keydown mapping: only the two horizontal arrow keys navigate. */
  function KeyDirection(key: string): (dir: Option<int>)
    ensures dir == Some(1) <==> key == "ArrowRight"
    ensures dir == Some(-1) <==> key == "ArrowLeft"
    ensures dir.None? <==> key != "ArrowRight" && key != "ArrowLeft"
  {
    if key == "ArrowRight" then Some(1)
    else if key == "ArrowLeft" then Some(-1)
    else None
  }

  /** `panels[index]` is a panel, not `undefined`, exactly for the indices in range. */
  predicate InRange(index: int, panelCount: nat) {
    0 <= index < panelCount
  }
}
