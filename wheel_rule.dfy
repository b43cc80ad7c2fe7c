/**
 The decision rule of the WebSlides scroll plugin: how one wheel event,
 given whether the handler is gated (a transition is animating or the
 post-transition cooldown is active) and the layout orientation, turns into
 a navigation request and a decision to suppress the browser's default
 scrolling. Deltas are only compared and passed through `Math.abs`, so
 unbounded integers stand in for the event's numbers.
 */
module WheelRule {

  /** The smallest delta magnitude, on either axis, that counts as a request to navigate. */
  const MinWheelDelta: int := 40

  /** What the handler asks of the host presentation. */
  datatype Nav = Stay | Prev | Next

  /** The outcome of one wheel event: the navigation requested, whether
      `preventDefault` was called, and whether the direction flags
      `isGoingUp_` / `isGoingLeft_` were written. */
  datatype Reaction = Reaction(nav: Nav, prevented: bool, recordsDirection: bool)

  /** `Math.abs` on the integers. */
  function Abs(x: int): (r: nat)
    ensures r == x || r == -x
  {
    if x < 0 then -x else x
  }

  /** The gesture is mainly horizontal. */
  predicate HorizontalDominant(dx: int, dy: int)
    // the vertical delta lies strictly inside the band the horizontal one spans,
    // so a horizontal delta of zero never dominates
    ensures HorizontalDominant(dx, dy) <==> (0 < dx && -dx < dy < dx) || (dx < 0 && dx < dy < -dx)
  {
    Abs(dx) > Abs(dy)
  }

  /** Either axis reaches the threshold. */
  predicate AboveThreshold(dx: int, dy: int)
    // below the threshold means both deltas lie strictly between -40 and 40
    ensures !AboveThreshold(dx, dy) <==> -MinWheelDelta < dx < MinWheelDelta && -MinWheelDelta < dy < MinWheelDelta
  {
    Abs(dy) >= MinWheelDelta || Abs(dx) >= MinWheelDelta
  }

  /** The direction chosen from the two flags: back when going up or going left. */
  function Direction(isGoingUp: bool, isGoingLeft: bool): (n: Nav)
    ensures n != Stay
    ensures n == Prev <==> isGoingUp || isGoingLeft
  {
    if isGoingUp || isGoingLeft then Prev else Next
  }

  /** The reaction to one wheel event with deltas `dx`, `dy`. */
  function React(gated: bool, isVertical: bool, dx: int, dy: int): (r: Reaction)
    // a gated event only suppresses default and leaves the flags alone
    ensures gated ==> r == Reaction(Stay, true, false)
    // an ungated event always records its direction, even when it then returns early
    ensures !gated ==> r.recordsDirection
    // navigation happens exactly on an ungated, above-threshold event that is not
    // a horizontal gesture on a vertical layout
    ensures r.nav != Stay <==>
              !gated && AboveThreshold(dx, dy) && !(isVertical && HorizontalDominant(dx, dy))
    // the direction is back exactly when either delta is negative
    ensures r.nav != Stay ==> (r.nav == Prev <==> dy < 0 || dx < 0)
    // default is suppressed when gated, when navigating, or for a horizontal
    // gesture on a horizontal layout (whatever its magnitude), and never otherwise
    ensures r.prevented <==>
              gated || r.nav != Stay || (!isVertical && HorizontalDominant(dx, dy))
  {
    if gated then
      Reaction(Stay, true, false)
    else if HorizontalDominant(dx, dy) && isVertical then
      Reaction(Stay, false, true)
    else if AboveThreshold(dx, dy) then
      Reaction(Direction(dy < 0, dx < 0), true, true)
    else
      Reaction(Stay, HorizontalDominant(dx, dy), true)
  }

  /** Worked cases of the rule on both layouts. */
  lemma ReactExamples()
    // horizontal layout, vertical scroll up / down past the threshold
    ensures React(false, false, 0, -50) == Reaction(Prev, true, true)
    ensures React(false, false, 0, 50) == Reaction(Next, true, true)
    // horizontal gesture on a vertical layout: nothing, default kept
    ensures React(false, true, -60, -10) == Reaction(Stay, false, true)
    // horizontal gesture on a horizontal layout: back, default suppressed
    ensures React(false, false, -60, -10) == Reaction(Prev, true, true)
    // small horizontal gesture on a horizontal layout: suppressed without navigating
    ensures React(false, false, 5, 1) == Reaction(Stay, true, true)
    // a mainly downward scroll with a slight leftward drift still goes back
    ensures React(false, true, -1, 50) == Reaction(Prev, true, true)
    // a small vertical scroll passes through
    ensures React(false, false, 3, 39) == Reaction(Stay, false, true)
  {
  }
}
