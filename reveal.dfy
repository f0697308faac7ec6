/**
 * Scroll-triggered reveal (script.js:143-156): every revealable element gets
 * a staggered transition delay and is observed; the first time it is reported
 * intersecting it gains the `visible` class and is no longer observed.
 */
module Reveal {
  import opened Elements

  const DelayStepMs: nat := 40
  const MaxDelayMs: nat := 200

  /** `Math.min(i*40, 200)`: the transition delay of the `i`-th revealable element. */
  function TransitionDelay(i: nat): (ms: nat)
    ensures ms <= MaxDelayMs
    ensures ms == 0 <==> i == 0
    ensures ms == MaxDelayMs <==> i >= 5
    ensures i < 5 ==> ms == i * DelayStepMs
  {
    if i * DelayStepMs < MaxDelayMs then i * DelayStepMs else MaxDelayMs
  }

  /** Later elements never start earlier. */
  lemma DelayMonotone(i: nat, j: nat)
    requires i <= j
    ensures TransitionDelay(i) <= TransitionDelay(j)
  {
  }

  /** One IntersectionObserver entry: its target and whether it intersects. */
  datatype Entry = Entry(target: Element, isIntersecting: bool)

  /** The targets of the intersecting entries of a batch. */
  ghost function Intersecting(entries: seq<Entry>): set<Element>
    decreases |entries|
  {
    if entries == [] then {}
    else
      var last := entries[|entries| - 1];
      Intersecting(entries[..|entries| - 1]) + (if last.isIntersecting then {last.target} else {})
  }

  class RevealObserver {
    /** The elements currently observed. */
    var observing: set<Element>

    /** An observed element has not been revealed yet: a revealed one is never reported again. */
    ghost predicate Valid()
      reads this, observing
    {
      forall e :: e in observing ==> !e.visible
    }

    constructor ()
      ensures observing == {} && Valid()
    {
      observing := {};
    }

    method Observe(e: Element)
      requires Valid() && !e.visible
      modifies this
      ensures observing == old(observing) + {e} && Valid()
    {
      observing := observing + {e};
    }

    method Unobserve(e: Element)
      modifies this
      ensures observing == old(observing) - {e}
    {
      observing := observing - {e};
    }

    /**
     * The observer callback over one batch of entries, which the browser
     * delivers for observed elements only. Each intersecting target becomes
     * visible and stops being observed; nothing is ever made invisible.
     */
    method OnEntries(entries: seq<Entry>)
      requires Valid()
      requires forall k :: 0 <= k < |entries| ==> entries[k].target in observing
      modifies this, set k | 0 <= k < |entries| :: entries[k].target
      ensures Valid()
      ensures observing == old(observing) - Intersecting(entries)
      ensures forall e :: e in old(observing) ==> e.visible == (e in Intersecting(entries))
      ensures forall e :: e in old(observing) ==>
        e.transitionDelay == old(e.transitionDelay) && e.flipped == old(e.flipped) && e.ariaPressed == old(e.ariaPressed)
    {
      var i := 0;
      while i < |entries|
        invariant 0 <= i <= |entries|
        invariant observing == old(observing) - Intersecting(entries[..i])
        invariant forall e :: e in old(observing) ==> e.visible == (e in Intersecting(entries[..i]))
        invariant forall e :: e in old(observing) ==>
          e.transitionDelay == old(e.transitionDelay) && e.flipped == old(e.flipped) && e.ariaPressed == old(e.ariaPressed)
      {
        assert entries[..i + 1][..i] == entries[..i];
        var en := entries[i];
        if en.isIntersecting {
          en.target.visible := true;
          Unobserve(en.target);
        }
        i := i + 1;
      }
      assert entries[..|entries|] == entries;
    }
  }

  /**
   * Page set-up: the `i`-th revealable element gets delay `TransitionDelay(i)`
   * and is observed. The elements are distinct and none is revealed yet.
   */
  method Register(observer: RevealObserver, revealables: seq<Element>)
    requires observer.Valid()
    requires forall a, b :: 0 <= a < b < |revealables| ==> revealables[a] != revealables[b]
    requires forall k :: 0 <= k < |revealables| ==> !revealables[k].visible
    modifies observer, set k | 0 <= k < |revealables| :: revealables[k]
    ensures observer.Valid()
    ensures observer.observing == old(observer.observing) + set k | 0 <= k < |revealables| :: revealables[k]
    ensures forall k :: 0 <= k < |revealables| ==> revealables[k].transitionDelay == TransitionDelay(k)
    ensures forall k :: 0 <= k < |revealables| ==>
      revealables[k].visible == old(revealables[k].visible) &&
      revealables[k].flipped == old(revealables[k].flipped) &&
      revealables[k].ariaPressed == old(revealables[k].ariaPressed)
  {
    for i := 0 to |revealables|
      invariant observer.Valid()
      invariant observer.observing == old(observer.observing) + set k | 0 <= k < i :: revealables[k]
      invariant forall k :: 0 <= k < i ==> revealables[k].transitionDelay == TransitionDelay(k)
      invariant forall k :: 0 <= k < |revealables| ==> !revealables[k].visible
      invariant forall k :: 0 <= k < |revealables| ==>
        revealables[k].flipped == old(revealables[k].flipped) &&
        revealables[k].ariaPressed == old(revealables[k].ariaPressed)
    {
      revealables[i].transitionDelay := TransitionDelay(i);
      observer.Observe(revealables[i]);
    }
  }
}
