/**
 * Per-element flags of the page: the `visible` class added by the reveal
 * observer, the inline transition delay, and the flip interaction of team
 * panels (script.js:187-201), whose state is the `is-flipped` class and the
 * `aria-pressed` attribute.
 */
module Elements {
  import opened Wrappers

  /** `aria-pressed` after a click: "true" unless it read "true" before. */
  function PressedAfterClick(ariaPressed: Option<string>): (r: string)
    ensures r == "true" <==> ariaPressed != Some("true")
    ensures r == "true" || r == "false"
  {
    var pressed := ariaPressed == Some("true");
    if pressed then "false" else "true"
  }

  /** Enter and Space activate a focused panel as a click would. */
  predicate IsActivationKey(key: string) {
    key == "Enter" || key == " "
  }

  /** Clicking twice restores a "true"/"false" attribute; an absent one ends as "false". */
  lemma DoubleClickAttribute(ariaPressed: Option<string>)
    ensures ariaPressed == Some("true") || ariaPressed == Some("false") ==>
      Some(PressedAfterClick(Some(PressedAfterClick(ariaPressed)))) == ariaPressed
    ensures ariaPressed.None? ==> PressedAfterClick(ariaPressed) == "true"
    ensures ariaPressed.None? ==> PressedAfterClick(Some(PressedAfterClick(ariaPressed))) == "false"
  {
  }

  class Element {
    var visible: bool
    var transitionDelay: nat
    var flipped: bool
    /** None when the attribute is absent. */
    var ariaPressed: Option<string>

    constructor (flipped: bool, ariaPressed: Option<string>)
      ensures !visible && transitionDelay == 0
      ensures this.flipped == flipped && this.ariaPressed == ariaPressed
    {
      visible := false;
      transitionDelay := 0;
      this.flipped := flipped;
      this.ariaPressed := ariaPressed;
    }

    /** The attribute agrees with the flip state. */
    predicate Synced()
      reads this
    {
      ariaPressed == Some("true") <==> flipped
    }

    method Click()
      modifies this`flipped, this`ariaPressed
      ensures flipped == !old(flipped)
      ensures ariaPressed == Some(PressedAfterClick(old(ariaPressed)))
      ensures Synced() <==> old(Synced())
    {
      flipped := !flipped;
      var pressed := ariaPressed == Some("true");
      ariaPressed := Some(if pressed then "false" else "true");
    }

    method KeyDown(key: string)
      modifies this`flipped, this`ariaPressed
      ensures IsActivationKey(key) ==> flipped == !old(flipped) && ariaPressed == Some(PressedAfterClick(old(ariaPressed)))
      ensures !IsActivationKey(key) ==> flipped == old(flipped) && ariaPressed == old(ariaPressed)
    {
      if key == "Enter" || key == " " {
        Click();
      }
    }

    /** Two clicks in a row restore the flip state, and the attribute too when it was "true" or "false"; an absent one ends as "false". */
    method ClickTwice()
      modifies this`flipped, this`ariaPressed
      ensures flipped == old(flipped)
      ensures old(ariaPressed) == Some("true") || old(ariaPressed) == Some("false") ==> ariaPressed == old(ariaPressed)
      ensures old(ariaPressed).None? ==> ariaPressed == Some("false")
      ensures Synced() <==> old(Synced())
    {
      Click();
      Click();
    }
  }
}
