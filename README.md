# Event-Registration page interactivity, modelled in Dafny

The page script `script.js` wires a marketing page: a draggable carousel of
team panels with momentum and snap-to-nearest-panel, prev/next buttons and
arrow keys, scroll-triggered reveal animations, flip cards, and a modal
registration form with validation and a simulated submission. This project
models the stateful parts of it, with the DOM abstracted away. A pointer
position is passed in as `pageX - offsetLeft`. A timestamp stands for
`Date.now()`. Element geometry is passed in as numbers. Each timer callback
becomes an explicit tick event.

Files and modules:

- `wrappers.dfy` (`Wrappers`): `Option`.
- `snap.dfy` (`Snap`): panel rectangles, the distance from a panel's centre
  to the track's centre, the argmin specification `IsFirstNearest` (the first
  panel of minimal distance), the recursive strict-`<` scan `Nearest`, proved
  to select exactly that panel, and the settle callback's loop `ClosestPanel`,
  proved equal to `Nearest`.
- `navigation.dfy` (`Navigation`): the step `dir * (width + 22)`, the
  key-to-direction mapping, and the `scrollToPanel` range test.
- `drag_model.dfy` (`DragModel`): all the carousel variables as one value
  `Track`, with one function per event listener. `Apply` takes one event and
  `Run` a sequence of events. The `ScrollTo` event stands for a caller of
  `scrollToPanel` that script.js does not have: the function is defined but
  never called. The lemmas state the per-event properties and two invariants
  over every run.
- `carousel.dfy` (`CarouselTrack`): class `Carousel`, with one field per
  module-level variable plus `offset` (`track.scrollLeft`), `behavior` (the
  inline `scroll-behavior`), `pendingSnaps` (settle timers not yet fired) and
  `target` (the last panel passed to `scrollIntoView`). Each listener is a
  method that updates the fields in place. Its `ensures` ties the new state
  to the matching `DragModel` function of the old state.
- `elements.dfy` (`Elements`): class `Element` with the per-element flags
  (`visible`, the transition delay, `is-flipped`, `aria-pressed`) and the
  flip click and keydown handlers.
- `reveal.dfy` (`Reveal`): the staggered delay `min(i*40, 200)`, the set-up
  loop, and class `RevealObserver`. Its invariant says an observed element
  is never visible yet. Since the browser reports only observed elements, a
  revealed element gets no further events.
- `registration.dfy` (`Registration`): the submit handler with its
  three-field test, and the two timers as explicit ticks. Each scheduled
  callback is counted, so overlapping submissions are modelled as
  independent pending callbacks.

Quirks of the source kept as written:

- `startX` is shared by mouse and touch. A mouse press during a touch
  session re-anchors the touch drag (`MousePressReanchorsTouchDrag`).
- touchmove is ignored while `startX` is 0. A touch whose `pageX` equals
  `track.offsetLeft` (measured from the track's offset parent) therefore
  never drags (`TouchAtZeroNeverDrags`).
- The debounce compares with the last accepted touch start
  (`RejectedTouchDoesNotExtendWindow`).
- touchend never resets `lastTouchTime`.

Further behaviour of script.js that the model keeps:

- mouseup and mouseleave clear only `isDown` (script.js:44-52), and
  touchend returns at once when no touch session runs (script.js:97).
- `scrollByPanel` reads the first panel unguarded and throws when there is
  none (script.js:17). The model makes "at least one panel" a precondition
  of `ScrollByPanel`.
- Nothing stops a second session from starting. A mouse press is accepted
  during a touch session, and a touch start at least 100 ms after the last
  accepted one starts a new session even if the previous one never ended.

## Model

| member | source | states |
|---|---|---|
| Snap.Nearest | script.js:113-125 | the scan's result is absent exactly when there are no panels, and is otherwise a valid panel index |
| Snap.NearestIsFirstNearest | script.js:116-125 | the chosen panel minimises the centre distance and every earlier panel is strictly farther, so the first of tied minima wins; conversely, any panel with that property is the one chosen |
| Snap.ClosestPanel | script.js:109-125 | the forEach loop with its running minimum returns the first nearest panel, or nothing for zero panels |
| Navigation.StepsAreOpposite | script.js:16-19 | next scrolls by panel width plus 22, prev by exactly the opposite amount, and the two cancel |
| Navigation.KeyDirection | script.js:138-141 | ArrowRight maps to +1, ArrowLeft to -1, and every other key to no direction (both directions of each equivalence) |
| Navigation.StepAmount | script.js:17-18 | the scroll amount of `scrollByPanel`: `dir` times the panel width plus the 22 px gap (its properties are `StepsAreOpposite`) |
| Navigation.InRange | script.js:25 | `panels[index]` exists exactly when `0 <= index < panelCount` |
| DragModel.Initial | script.js:33-67 | the initial values satisfy the drag invariant, with neither mouse nor touch session active and no snap pending |
| DragModel.OnMouseDown | script.js:37-42 | mousedown: mouse down, anchored at the pointer and at the current offset |
| DragModel.OnMouseRelease | script.js:44-52 | mouseleave and mouseup: `isDown` cleared |
| DragModel.OnMouseMove | script.js:54-60 | mousemove: the offset follows the pointer while down (properties in `MouseMoveFollowsPointer`) |
| DragModel.OnTouchStart | script.js:69-80 | touchstart with the 100 ms debounce (properties in `TouchStartDebounce`) |
| DragModel.OnTouchMove | script.js:82-94 | touchmove with the `!startX` and `!isScrolling` guard, velocity and offset (properties in `TouchMoveTracksVelocity`) |
| DragModel.OnTouchEnd | script.js:96-135 | touchend: momentum, smooth scrolling back on, one settle scheduled, session cleared (properties in `TouchEndMomentum`) |
| DragModel.OnSettle | script.js:108-130 | the settle timer: target the `Nearest` panel when there is one (properties in `SettleSnapsToNearest`) |
| DragModel.OnAdvance | script.js:16-20 | `scrollByPanel`: offset moved by `StepAmount` |
| DragModel.OnScrollTo | script.js:23-28 | `scrollToPanel`: target set only for an index in range |
| DragModel.OnKey | script.js:138-141 | carousel keydown: an arrow key advances, other keys do nothing |
| DragModel.Apply | script.js:29-141 | dispatches one event to its handler (`ScrollTo` stands for a `scrollToPanel` call script.js never makes); a settle tick with nothing pending is ignored |
| DragModel.Run | script.js:29-141 | applies a sequence of events in order |
| DragModel.MouseMoveFollowsPointer | script.js:54-60 | while the mouse is down, the offset becomes `scrollLeft - (x - startX) * 2` and nothing else changes; otherwise the move does nothing |
| DragModel.MouseMoveIsAbsolute | script.js:54-60 | two mouse moves have the effect of the last one alone |
| DragModel.MouseDragBackRestoresOffset | script.js:37-60 | press at x0, drag anywhere, return to x0: the offset is the one at the press |
| DragModel.MouseReleaseClearsOnlyIsDown | script.js:44-52 | mouseup and mouseleave clear `isDown` and nothing else, after which mouse moves are ignored |
| DragModel.TouchStartDebounce | script.js:69-80 | a start within 100 ms of the last accepted one changes nothing, `lastTouchTime` included; an accepted start anchors at the current offset, zeroes velocity, sets `lastScrollLeft`, suspends smooth scrolling, records `now` and leaves the rest |
| DragModel.RapidSecondTouchIgnored | script.js:69-80 | after an accepted touch start, a second one less than 100 ms later has no effect |
| DragModel.RejectedTouchDoesNotExtendWindow | script.js:71-79 | a rejected start does not move the debounce window: the next start is judged as if it had not happened |
| DragModel.TouchMoveTracksVelocity | script.js:82-94 | an accepted touch move sets the offset to `scrollLeft - (x - startX) * 1.2`, sets velocity to the new offset minus the previous `lastScrollLeft`, and changes nothing else; it does nothing when `startX == 0` or no session runs |
| DragModel.VelocityOfSuccessiveMoves | script.js:89-91 | after two accepted moves, velocity is the difference of their two computed offsets |
| DragModel.TouchAtZeroNeverDrags | script.js:73-83 | a session anchored at x == 0 ignores every touch move |
| DragModel.MousePressReanchorsTouchDrag | script.js:37-94 | the shared anchor: after a mouse press during a touch session, touch moves are measured from the press position and the offset at the press |
| DragModel.TouchEndMomentum | script.js:96-135 | no-op without a session; otherwise adds `velocity * 8` only when the absolute velocity exceeds 2, restores smooth scrolling, schedules one settle, clears `startX`, `isScrolling` and `velocity`, and keeps `lastTouchTime`, `scrollLeft`, `lastScrollLeft`, `isDown` and `target` |
| DragModel.TouchEndEndsSession | script.js:96-135 | under the invariant, no session runs and velocity is zero after any touchend |
| DragModel.SettleSnapsToNearest | script.js:108-130 | the settle tick targets the first panel nearest the track centre (`left + width/2`), keeps the old target when there are no panels, consumes one pending timer and changes nothing else |
| DragModel.NextThenPrevRoundTrip | script.js:16-30 | a next click followed by a prev click with the same panel width returns the track to the same state |
| DragModel.KeyNavigation | script.js:138-141 | ArrowRight acts as next, ArrowLeft as prev, and any other key leaves the state unchanged |
| DragModel.ScrollToOnlyInRange | script.js:23-28 | `scrollToPanel(i)` targets panel i when `0 <= i < count` and otherwise does nothing |
| DragModel.ApplyPreservesInv | script.js:37-141 | every event keeps the invariant: velocity is nonzero only in a touch session, and smooth scrolling is off throughout a touch session |
| DragModel.RunPreservesInv | script.js:37-141 | every sequence of events keeps that invariant |
| DragModel.ApplyAdvancesTouchTime | script.js:69-80 | an event either keeps `lastTouchTime` or advances it by at least 100 ms |
| DragModel.RunNeverRewindsTouchTime | script.js:69-135 | over any run, `lastTouchTime` never decreases |
| CarouselTrack.Carousel.constructor | script.js:33-67 | the fields start at the script's initial values |
| CarouselTrack.Carousel.MouseDown | script.js:37-42 | the new state is `OnMouseDown` of the old: mouse down, anchored at x and at the current offset |
| CarouselTrack.Carousel.MouseLeave | script.js:44-47 | the new state is the old with only `isDown` cleared |
| CarouselTrack.Carousel.MouseUp | script.js:49-52 | the new state is the old with only `isDown` cleared |
| CarouselTrack.Carousel.MouseMove | script.js:54-60 | the new state is `OnMouseMove` of the old |
| CarouselTrack.Carousel.TouchStart | script.js:69-80 | the new state is `OnTouchStart` of the old (the debounce included) |
| CarouselTrack.Carousel.TouchMove | script.js:82-94 | the new state is `OnTouchMove` of the old |
| CarouselTrack.Carousel.TouchEnd | script.js:96-135 | the new state is `OnTouchEnd` of the old: momentum, snap scheduled, session cleared |
| CarouselTrack.Carousel.Settle | script.js:108-130 | the new state is `OnSettle` of the old, computed with the `ClosestPanel` loop |
| CarouselTrack.Carousel.ScrollByPanel | script.js:16-20 | the offset moves by `StepAmount(dir, first panel width)`, and nothing else changes |
| CarouselTrack.Carousel.ScrollToPanel | script.js:23-28 | the new state is `OnScrollTo` of the old |
| CarouselTrack.Carousel.PrevClick | script.js:29 | the prev button acts as the `Prev` event |
| CarouselTrack.Carousel.NextClick | script.js:30 | the next button acts as the `Next` event |
| CarouselTrack.Carousel.KeyDown | script.js:138-141 | an arrow key acts as `OnKey`; any other key changes nothing, and only arrow keys need a panel |
| Elements.PressedAfterClick | script.js:191-192 | the new `aria-pressed` is "true" exactly when the old value was not "true" (so an absent attribute becomes "true"), and is always "true" or "false" |
| Elements.Element.constructor | script.js:188 | a panel starts with the given flip class and attribute, not revealed, with no transition delay |
| Elements.DoubleClickAttribute | script.js:189-193 | two clicks restore a "true" or "false" attribute; an absent one becomes "true", then "false" |
| Elements.Element.Click | script.js:189-193 | toggles `is-flipped`, sets `aria-pressed` by `PressedAfterClick`, keeps flag and attribute in agreement exactly when they were |
| Elements.Element.KeyDown | script.js:194-199 | Enter and Space have the effect of a click; other keys change nothing |
| Elements.Element.ClickTwice | script.js:189-193 | two clicks restore the flip state, and the attribute too when it was "true" or "false"; an absent one ends as "false" |
| Reveal.TransitionDelay | script.js:153-154 | the delay is at most 200, is 0 exactly at index 0, is 200 exactly from index 5 on, and is `i * 40` below that |
| Reveal.DelayMonotone | script.js:153-154 | the delay never decreases with the index |
| Reveal.RevealObserver.constructor | script.js:145-152 | a new observer observes nothing |
| Reveal.RevealObserver.Observe | script.js:155 | `observer.observe(el)` adds the element to the observed set and keeps the invariant |
| Reveal.RevealObserver.Unobserve | script.js:149 | `observer.unobserve(target)` removes the element from the observed set |
| Reveal.RevealObserver.OnEntries | script.js:145-152 | each intersecting target becomes visible and is unobserved; the others stay observed and hidden; the invariant (observed implies not yet visible) is kept |
| Reveal.Register | script.js:153-156 | the i-th revealable gets delay `TransitionDelay(i)` and all are observed |
| Registration.NoteOnSubmit | script.js:216-222 | the note after a submit is the warning exactly when name, email or competition is empty, and "submitting" otherwise |
| Registration.RegistrationForm.constructor | script.js:208-209 | the form starts with its default values, a blank note, the modal closed and no timers pending |
| Registration.RegistrationForm.OpenModal | script.js:204-206 | a register button opens the modal and changes nothing else |
| Registration.RegistrationForm.Input | script.js:212-215 | stands for the user filling in the form, not for script code: the field values become those read by the next submit, and nothing else changes |
| Registration.RegistrationForm.Submit | script.js:210-223 | an incomplete form gets only the warning (no timer, no reset, no close); a complete one gets "submitting" and one pending 900 ms callback |
| Registration.RegistrationForm.ReceiptTimer | script.js:224-229 | the 900 ms callback shows the success note, resets the fields to their defaults and schedules one close |
| Registration.RegistrationForm.CloseTimer | script.js:227 | the 800 ms callback closes the modal and changes nothing else |
| Registration.RegistrationForm.SubmitAndWait | script.js:210-230 | a complete submission goes strictly through "submitting", then success with the form reset and the modal still open, then the modal closed |

## Left out

- Parallax (script.js:1-8), the magnetic button percentages (script.js:158-167) and the pointer tilt angles (script.js:171-185): presentation-only floating-point styling with no state.
- Floating point: pixel arithmetic uses exact `real`, so rounding of `1.2`, of the centre halves and of the products is not modelled. JavaScript's `!startX` is also true for `NaN`, which has no counterpart here.
- Browser scrolling: native clamping of `scrollLeft` to the scroll extent, the smooth-scroll animation and what `scrollIntoView` does to the offset. `scrollBy` is modelled as adding the amount to the offset, and `scrollIntoView` only records the targeted panel in `target`.
- Geometry queries (`getBoundingClientRect`, `offsetLeft`, `querySelectorAll`) are inputs, not computed.
- Real time: `Date.now()` is a parameter, and each `setTimeout` callback is an explicit tick that may run once it has been scheduled. The delays (100, 800 and 900 ms) and the order in which pending callbacks of different submissions fire are not modelled.
- The cursor style strings, the note colours, the literal message texts (including the mis-encoded ellipsis of the "submitting" text) and `preventDefault`.
- The optional-chaining guards on `track`, `prev`, `next`, `carousel` and `form`, and the unguarded uses of `modal` (`showModal` at script.js:206, `close` at script.js:227) and `note` (`textContent` at script.js:217, 222 and 225): the model assumes all these elements exist.
- `FormData` parsing: a field is a string, so a field missing from the form (`get` returning `null`) is not represented. `form.reset()` restores the form's default values, kept in `defaults`.
- The IntersectionObserver threshold (0.15) and its delivery logic: `OnEntries` requires that it reports observed elements only.
- `showModal`/`close` internals, including what `showModal` does on an already open dialog.
- `panel.click()` dispatch from the keydown handler is modelled as a direct call of the click handler.
- DragModel.TouchEndEndsSession: states that no session runs and velocity is zero after every touchend, but not that `startX` is 0, because touchend returns early without touching `startX` when no session runs.
