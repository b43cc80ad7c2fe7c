/**
 The scroll handler as a state machine over the events the page delivers to
 it: wheel events, the presentation's "slide changed" notification, and the
 runtime running one of the cooldown timer callbacks the handler scheduled.
 `Step` is the specification of one event and `Run` of a sequence of them;
 the lemmas state what holds over every sequence.
 */
module ScrollTrace {
  import opened WheelRule

  /** Which listeners the constructor registered, and the layout orientation. */
  datatype Config = Config(isVertical: bool, wheelListening: bool, slideChangeListening: bool)

  /** The handler's fields: the two direction flags, whether `timeout_` is set,
      and how many timer callbacks are scheduled and not yet run. */
  datatype State = State(isGoingUp: bool, isGoingLeft: bool, cooldown: bool, pendingTimers: nat)

  /** What the page delivers. `isMoving` is the host's live transition flag. */
  datatype Event = Wheel(isMoving: bool, dx: int, dy: int) | SlideChange | TimerFires

  /** What the handler does in answer to one event. */
  datatype Output = Output(nav: Nav, prevented: bool)

  const Quiet := Output(Stay, false)

  const Initial := State(false, false, false, 0)

  /** The registration policy of the constructor: nothing on a mobile device,
      otherwise the wheel listener, and the slide-change listener only on a
      horizontal layout. */
  function Registration(isMobile: bool, isVertical: bool): (c: Config)
    ensures c.isVertical == isVertical
    ensures c.wheelListening <==> !isMobile
    ensures c.slideChangeListening <==> !isMobile && !isVertical
    ensures c.slideChangeListening ==> c.wheelListening
  {
    Config(isVertical, !isMobile, !isMobile && !isVertical)
  }

  /** One event. An event without a registered listener changes nothing; a
      timer fires only if one is scheduled. */
  function Step(c: Config, s: State, e: Event): (r: (State, Output))
    // an event without a registered listener is a no-op
    ensures (e.Wheel? && !c.wheelListening) || (e.SlideChange? && !c.slideChangeListening) ==> r == (s, Quiet)
    // a handled wheel event answers as the decision rule says
    ensures e.Wheel? && c.wheelListening ==>
              var re := React(e.isMoving || s.cooldown, c.isVertical, e.dx, e.dy);
              r.1 == Output(re.nav, re.prevented)
    // an ungated handled wheel event records its direction and changes nothing else
    ensures e.Wheel? && c.wheelListening && !(e.isMoving || s.cooldown) ==>
              r.0 == s.(isGoingUp := e.dy < 0, isGoingLeft := e.dx < 0)
    // a gated wheel event leaves the whole state unchanged
    ensures e.Wheel? && (e.isMoving || s.cooldown) ==> r.0 == s
    // wheel events never touch the cooldown or the timers
    ensures e.Wheel? ==> r.0.cooldown == s.cooldown && r.0.pendingTimers == s.pendingTimers
    // only wheel events produce a navigation request or suppress default
    ensures !e.Wheel? ==> r.1 == Quiet && r.0.isGoingUp == s.isGoingUp && r.0.isGoingLeft == s.isGoingLeft
    // a handled slide change arms the cooldown and schedules a timer
    ensures e.SlideChange? && c.slideChangeListening ==>
              r.0.cooldown && r.0.pendingTimers == s.pendingTimers + 1
    // a timer that fires ends the cooldown unconditionally
    ensures e.TimerFires? && s.pendingTimers > 0 ==>
              !r.0.cooldown && r.0.pendingTimers == s.pendingTimers - 1
  {
    match e
    case Wheel(isMoving, dx, dy) =>
      if !c.wheelListening then (s, Quiet)
      else
        var re := React(isMoving || s.cooldown, c.isVertical, dx, dy);
        var s' := if re.recordsDirection then s.(isGoingUp := dy < 0, isGoingLeft := dx < 0) else s;
        (s', Output(re.nav, re.prevented))
    case SlideChange =>
      if !c.slideChangeListening then (s, Quiet)
      else (s.(cooldown := true, pendingTimers := s.pendingTimers + 1), Quiet)
    case TimerFires =>
      if s.pendingTimers == 0 then (s, Quiet)
      else (s.(cooldown := false, pendingTimers := s.pendingTimers - 1), Quiet)
  }

  /** A sequence of events, from first to last: the final state and one output per event. */
  function Run(c: Config, s: State, es: seq<Event>): (r: (State, seq<Output>))
    ensures |r.1| == |es|
    ensures forall i :: 0 <= i < |es| && !es[i].Wheel? ==> r.1[i] == Quiet
    decreases |es|
  {
    if es == [] then (s, [])
    else
      var (s1, o) := Step(c, s, es[0]);
      var (s2, os) := Run(c, s1, es[1..]);
      assert forall i :: 1 <= i < |es| ==> es[i] == es[1..][i - 1];
      (s2, [o] + os)
  }

  /** The cooldown is only ever active while a timer that will end it is scheduled. */
  predicate CooldownHasTimer(s: State) {
    s.cooldown ==> s.pendingTimers > 0
  }

  lemma {:induction false} CooldownHasTimerInvariant(c: Config, s: State, es: seq<Event>)
    requires CooldownHasTimer(s)
    ensures CooldownHasTimer(Run(c, s, es).0)
    decreases |es|
  {
    if es != [] {
      CooldownHasTimerInvariant(c, Step(c, s, es[0]).0, es[1..]);
    }
  }

  /** `n` timer callbacks in a row. */
  function Timers(n: nat): (es: seq<Event>)
    ensures |es| == n
    ensures forall i :: 0 <= i < n ==> es[i] == TimerFires
  {
    if n == 0 then [] else [TimerFires] + Timers(n - 1)
  }

  /** Once the runtime has run every scheduled callback, the cooldown is over
      and navigation is possible again. */
  lemma {:induction false} TimersEndCooldown(c: Config, s: State)
    requires CooldownHasTimer(s)
    ensures !Run(c, s, Timers(s.pendingTimers)).0.cooldown
    ensures Run(c, s, Timers(s.pendingTimers)).0.pendingTimers == 0
    decreases s.pendingTimers
  {
    if s.pendingTimers > 0 {
      var es := Timers(s.pendingTimers);
      assert es[1..] == Timers(s.pendingTimers - 1);
      TimersEndCooldown(c, Step(c, s, TimerFires).0);
    }
  }

  /** While the cooldown is active and no timer has fired, no event navigates,
      every handled wheel event suppresses default, the cooldown stays active
      and the direction flags keep their values. */
  lemma {:induction false} CooldownBlocksNavigation(c: Config, s: State, es: seq<Event>)
    requires s.cooldown
    requires forall i :: 0 <= i < |es| ==> es[i] != TimerFires
    ensures Run(c, s, es).0.cooldown
    ensures Run(c, s, es).0.isGoingUp == s.isGoingUp && Run(c, s, es).0.isGoingLeft == s.isGoingLeft
    ensures forall i :: 0 <= i < |es| ==> Run(c, s, es).1[i].nav == Stay
    ensures forall i :: 0 <= i < |es| && es[i].Wheel? && c.wheelListening ==> Run(c, s, es).1[i].prevented
    decreases |es|
  {
    if es != [] {
      var s1 := Step(c, s, es[0]).0;
      assert forall i :: 1 <= i < |es| ==> es[i] == es[1..][i - 1];
      CooldownBlocksNavigation(c, s1, es[1..]);
    }
  }

  /** On a vertical layout no slide-change listener exists, so the cooldown is
      never armed and no timer is ever scheduled. */
  lemma {:induction false} VerticalNeverCoolsDown(isMobile: bool, s: State, es: seq<Event>)
    requires !s.cooldown && s.pendingTimers == 0
    ensures !Run(Registration(isMobile, true), s, es).0.cooldown
    ensures Run(Registration(isMobile, true), s, es).0.pendingTimers == 0
    decreases |es|
  {
    if es != [] {
      VerticalNeverCoolsDown(isMobile, Step(Registration(isMobile, true), s, es[0]).0, es[1..]);
    }
  }

  /** On a mobile device no listener exists: no event navigates, suppresses
      default or changes the handler's state. */
  lemma {:induction false} MobileIgnoresEverything(isVertical: bool, s: State, es: seq<Event>)
    requires s.pendingTimers == 0
    ensures Run(Registration(true, isVertical), s, es).0 == s
    ensures forall i :: 0 <= i < |es| ==> Run(Registration(true, isVertical), s, es).1[i] == Quiet
    decreases |es|
  {
    if es != [] {
      MobileIgnoresEverything(isVertical, s, es[1..]);
    }
  }

  /** The direction flags are written but never read across events: two
      handlers that differ only in those flags answer every sequence of events
      identically. */
  lemma {:induction false} FlagsNeverRead(c: Config, s: State, t: State, es: seq<Event>)
    requires s.cooldown == t.cooldown && s.pendingTimers == t.pendingTimers
    ensures Run(c, s, es).1 == Run(c, t, es).1
    ensures Run(c, s, es).0.cooldown == Run(c, t, es).0.cooldown
    decreases |es|
  {
    if es != [] {
      FlagsNeverRead(c, Step(c, s, es[0]).0, Step(c, t, es[0]).0, es[1..]);
    }
  }

  /** Two slide changes schedule two timers; the first to fire ends the cooldown
      although the second is still pending, and the next wheel event navigates. */
  lemma FirstTimerEndsCooldown()
    ensures Run(Registration(false, false), Initial, [SlideChange, SlideChange, TimerFires]).0
            == State(false, false, false, 1)
    ensures Run(Registration(false, false), Initial, [SlideChange, SlideChange, TimerFires, Wheel(false, 0, 50)]).1[3]
            == Output(Next, true)
  {
  }
}
