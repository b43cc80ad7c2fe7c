# WebSlides scroll plugin, modelled in Dafny

The WebSlides `Scroll` plugin turns mouse-wheel events on a presentation into
"previous slide" / "next slide" requests. This project models it in three modules:

- `WheelRule` (`wheel_rule.dfy`) holds the decision rule for one wheel event. The
  event can be gated by a running transition (`isMoving`) or by the post-transition
  cooldown (`timeout_`). The rule also covers axis dominance (`|deltaX| > |deltaY|`),
  the fixed threshold `MIN_WHEEL_DELTA = 40`, and the choice of direction. `React`
  states the whole rule as a set of if-and-only-if contracts.
- `ScrollTrace` (`scroll_trace.dfy`) treats the handler as a state machine. Its inputs
  are wheel events, the host's `ws:slide-change` notification, and the runtime running
  one of the scheduled timer callbacks. `Step` specifies one event and `Run` a sequence
  of events. The lemmas prove properties that hold over every sequence:
  - the cooldown always has a timer that will end it;
  - a vertical layout never enters the cooldown;
  - on a mobile device the handler does nothing;
  - while the cooldown is active, nothing navigates;
  - the direction flags never influence any later answer.
- `ScrollPlugin` (`scroll.dfy`) holds the class `Scroll`. Its fields are the source's
  `isGoingUp_`, `isGoingLeft_` and `timeout_`.
  - `OnMouseWheel` follows the control flow of `Scroll.onMouseWheel_`, including the
    early returns.
  - `OnSlideChange` and `OnMouseWheel` run only as registered listeners: `Scroll`'s
    constructor binds `onMouseWheel_` and `onSlideChange_` only when it registers them
    (src/js/plugins/scroll.js:41-49). So each requires its listener to exist.
  - The contracts of `OnMouseWheel`, `OnSlideChange`, `TimerFires`, `DispatchWheel` and
    `DispatchSlideChange` tie the answer and the object's new fields to `ScrollTrace.Step`.
  - Hence the trace lemmas apply to any sequence of `DispatchWheel`,
    `DispatchSlideChange` and `TimerFires` calls on a `Scroll` object. No member states
    this for a whole sequence of calls at once.

`timeout_` is modelled as the boolean `cooldownActive`. A `setTimeout` handle is a
positive number, so `timeout_` is truthy exactly when it is set. A ghost counter
`pendingTimers` counts the timer callbacks that are scheduled but have not run yet.
The runtime runs a callback only if one is scheduled, so `Scroll.TimerFires` requires
one. In `Step`, a `TimerFires` event with nothing pending is a no-op. Every callback
clears `timeout_` unconditionally. As a result, after two slide changes the first
timer ends the cooldown while the second is still pending. The model keeps this
behaviour and `FirstTimerEndsCooldown` exhibits it.

## Model

| member | source | states |
|---|---|---|
| WheelRule.React | src/js/plugins/scroll.js:67-98 | A gated event (moving or cooldown) yields no navigation, suppresses default and writes no flags. An ungated event always writes the flags. Navigation happens iff the event is ungated, some axis has magnitude >= 40, and it is not a horizontal-dominant gesture on a vertical layout. A navigation is Prev iff deltaY < 0 or deltaX < 0. Default is suppressed iff the event is gated, navigates, or is horizontal-dominant on a horizontal layout (even below threshold). |
| WheelRule.Abs | src/js/plugins/scroll.js:78-89 | `Math.abs`: the result is non-negative and is the argument or its negation. |
| WheelRule.HorizontalDominant | src/js/plugins/scroll.js:78 | A gesture is mainly horizontal exactly when deltaY lies strictly between -deltaX and deltaX (in either sign), so deltaX = 0 never dominates and equal magnitudes do not. |
| WheelRule.AboveThreshold | src/js/plugins/scroll.js:88-89 | An event is below the threshold exactly when both deltas lie strictly between -40 and 40. |
| WheelRule.Direction | src/js/plugins/scroll.js:90-94 | The choice is never "stay". It is Prev exactly when going up or going left, otherwise Next. |
| WheelRule.ReactExamples | src/js/plugins/scroll.js:73-97 | Worked cases: up/down past the threshold go Prev/Next; a horizontal gesture does nothing on a vertical layout and goes Prev on a horizontal one; a small horizontal gesture on a horizontal layout suppresses default without navigating; (dx, dy) = (-1, 50) goes Prev; a small vertical scroll passes through. |
| ScrollTrace.Registration | src/js/plugins/scroll.js:41-49 | The wheel listener exists iff not mobile. The slide-change listener exists iff not mobile and the layout is horizontal, so it implies the wheel listener. |
| ScrollTrace.Step | src/js/plugins/scroll.js:57-98 | An event without a registered listener changes nothing and is quiet. A handled wheel event answers with `React`'s navigation and suppression. If ungated, it sets the flags to deltaY < 0 and deltaX < 0 and changes nothing else. A gated wheel event leaves the whole state unchanged. Wheel events never touch the cooldown or the timers. Only wheel events produce output or change the flags. A handled slide change arms the cooldown and schedules one timer. A firing timer ends the cooldown unconditionally. |
| ScrollTrace.Run | src/js/plugins/scroll.js:41-49 | A sequence of events produces one output per event, and every non-wheel event's output is quiet (no navigation, default kept). |
| ScrollTrace.CooldownHasTimerInvariant | src/js/plugins/scroll.js:57-59 | Over any sequence of events, the cooldown is active only while at least one timer that will clear it is scheduled. |
| ScrollTrace.TimersEndCooldown | src/js/plugins/scroll.js:58 | Once every scheduled timer has fired, the cooldown is over and no timer is pending. |
| ScrollTrace.CooldownBlocksNavigation | src/js/plugins/scroll.js:68-71 | From an active cooldown, a sequence of events without a timer firing never navigates. Every handled wheel event in it suppresses default, the cooldown stays active and the direction flags keep their values. |
| ScrollTrace.VerticalNeverCoolsDown | src/js/plugins/scroll.js:45-48 | On a vertical layout, starting without a cooldown, no sequence of events ever arms the cooldown or schedules a timer. |
| ScrollTrace.MobileIgnoresEverything | src/js/plugins/scroll.js:41-49 | On a mobile device every event's output is quiet. From a state with no pending timer, which every mobile object is in, the state after any sequence of events is the state before it. |
| ScrollTrace.FlagsNeverRead | src/js/plugins/scroll.js:74-75 | Two handlers that differ only in `isGoingUp_`/`isGoingLeft_` give the same outputs and reach the same cooldown on every sequence of events: the flags carry nothing across events. |
| ScrollTrace.FirstTimerEndsCooldown | src/js/plugins/scroll.js:58 | After two slide changes and one timer, the cooldown is off with one timer still pending, and a scroll down of 50 then goes Next. |
| ScrollPlugin.Scroll.constructor | src/js/plugins/scroll.js:10-50 | The registered listeners are those of `Registration(isMobile, isVertical)`. Both flags are false and there is no cooldown and no pending timer. |
| ScrollPlugin.Scroll.OnSlideChange | src/js/plugins/scroll.js:57-59 | Runs only as the registered listener. Arms the cooldown, schedules one more timer and leaves the flags alone: the new state is that of `Step` for a slide change. |
| ScrollPlugin.Scroll.TimerFires | src/js/plugins/scroll.js:58 | Clears the cooldown whatever other timers are pending, and uses up one scheduled timer, as `Step` says. |
| ScrollPlugin.Scroll.OnMouseWheel | src/js/plugins/scroll.js:67-98 | Runs only as the registered listener, and its answer and new state are those of `Step` for the wheel event. The navigation requested and the suppression are those of `React`. The cooldown and timers are unchanged. The flags are unchanged on a gated event and become deltaY < 0 and deltaX < 0 otherwise, including on the early return for a horizontal gesture on a vertical layout. |
| ScrollPlugin.Scroll.DispatchWheel | src/js/plugins/scroll.js:41-43 | A wheel event reaching the container changes the object and answers exactly as `Step` says: nothing happens if the listener was not registered. |
| ScrollPlugin.Scroll.DispatchSlideChange | src/js/plugins/scroll.js:45-48 | A slide-change notification changes the object exactly as `Step` says: nothing happens unless the listener was registered. |
| ScrollPlugin.SlideChangeThenScroll | src/js/plugins/scroll.js:57-97 | On a desktop object with a horizontal layout: after a slide change, a scroll up of 50 is blocked with default suppressed. After the timer fires, the same scroll goes Prev with default suppressed. |

## Left out

- DOM wiring is not modelled: `addEventListener`, event dispatch and the `WheelEvent` object. An event is the pair (deltaX, deltaY). The handler returns `prevented` instead of calling `preventDefault`. Registration is two booleans.
- `MobileDetector.isAny()` (`src/js/utils/mobile-detector`) is not part of this model. Its answer is the constructor parameter `isMobile`.
- The 400 ms duration of `setTimeout` and real time in general are not modelled. A timer firing is an explicit event, so "within 400 ms" reads as "before the timer event".
- The effects of the host's `goPrev`/`goNext` (slide indexing, rendering) are left out. Only which one was requested is recorded.
- Floating-point deltas are not modelled: `NaN`, `-0` and `deltaMode` units. Deltas are integers, and this loses nothing for finite values such as a trackpad's 0.5. The rule only compares the magnitudes |dx| and |dy| with each other, with 0 and with 40, and tests the signs of dx and dy. So any fractional pair has an integer pair with the same signs and the same comparisons (for example 1 and 2 in place of 0.3 and 0.5), and hence the same outcome.
- ScrollPlugin.Scroll.OnMouseWheel: the source reads `this.ws_.isVertical` live at each event. The model fixes the orientation at construction, because the host does not change its layout after creating the plugin.
- The references `ws_` and `scrollContainer_` to the host and its element are not modelled. They are never reassigned and only carry the calls above.
