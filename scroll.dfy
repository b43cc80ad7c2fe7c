/**
 The `Scroll` plugin itself: an object whose handlers update its fields in
 place. `OnMouseWheel` follows the control flow of `Scroll.onMouseWheel_`
 (its early returns included). `OnSlideChange` and `OnMouseWheel` run only as
 registered listeners: `Scroll`'s constructor binds `onMouseWheel_` and
 `onSlideChange_` only when it registers them. The contracts of `DispatchWheel`,
 `DispatchSlideChange`, `TimerFires`, `OnSlideChange` and `OnMouseWheel` tie
 the new fields and the answer to `ScrollTrace.Step`. Hence every property
 proved over `Run` holds of any sequence of `DispatchWheel`,
 `DispatchSlideChange` and `TimerFires` calls on an object.
 */
module ScrollPlugin {
  import opened WheelRule
  import opened ScrollTrace

  class Scroll {
    /** The layout orientation of the host presentation. */
    const isVertical: bool
    /** Whether the constructor registered the wheel listener. */
    const wheelListening: bool
    /** Whether the constructor registered the slide-change listener. */
    const slideChangeListening: bool

    /** `isGoingUp_`: the last ungated wheel event scrolled up. */
    var isGoingUp: bool
    /** `isGoingLeft_`: the last ungated wheel event scrolled left. */
    var isGoingLeft: bool
    /** `timeout_ != null`: the post-transition cooldown is active. */
    var cooldownActive: bool
    /** Timer callbacks this object scheduled that the runtime has not run yet. */
    ghost var pendingTimers: nat

    function Cfg(): Config {
      Config(isVertical, wheelListening, slideChangeListening)
    }

    ghost function Model(): State
      reads this
    {
      State(isGoingUp, isGoingLeft, cooldownActive, pendingTimers)
    }

    /** `isMobile` is the answer of the mobile detector, asked once here. */
    constructor (isMobile: bool, isVertical: bool)
      ensures Cfg() == Registration(isMobile, isVertical)
      ensures Model() == Initial
    {
      this.isVertical := isVertical;
      isGoingUp := false;
      isGoingLeft := false;
      cooldownActive := false;
      pendingTimers := 0;
      wheelListening := !isMobile;
      slideChangeListening := !isMobile && !isVertical;
    }

    /** The slide-change listener: arm the cooldown and schedule its end. */
    method OnSlideChange()
      requires slideChangeListening
      modifies this
      ensures (Model(), Quiet) == Step(Cfg(), old(Model()), SlideChange)
      ensures cooldownActive && pendingTimers == old(pendingTimers) + 1
      ensures isGoingUp == old(isGoingUp) && isGoingLeft == old(isGoingLeft)
    {
      cooldownActive := true;
      pendingTimers := pendingTimers + 1;
    }

    /** The callback of one scheduled timer: it clears `timeout_` whether or not
        a later timer is still pending. */
    method TimerFires()
      requires pendingTimers > 0
      modifies this
      ensures (Model(), Quiet) == Step(Cfg(), old(Model()), ScrollTrace.TimerFires)
      ensures !cooldownActive
    {
      cooldownActive := false;
      pendingTimers := pendingTimers - 1;
    }

    /** The wheel listener. `isMoving` is the host's transition flag, read live. */
    method OnMouseWheel(isMoving: bool, dx: int, dy: int) returns (nav: Nav, prevented: bool)
      requires wheelListening
      modifies this
      ensures (Model(), Output(nav, prevented)) == Step(Cfg(), old(Model()), Wheel(isMoving, dx, dy))
      ensures Reaction(nav, prevented, !(isMoving || old(cooldownActive)))
              == React(isMoving || old(cooldownActive), isVertical, dx, dy)
      ensures cooldownActive == old(cooldownActive) && pendingTimers == old(pendingTimers)
      ensures isMoving || old(cooldownActive) ==>
                isGoingUp == old(isGoingUp) && isGoingLeft == old(isGoingLeft)
      ensures !(isMoving || old(cooldownActive)) ==> isGoingUp == (dy < 0) && isGoingLeft == (dx < 0)
    {
      nav, prevented := Stay, false;
      if isMoving || cooldownActive {
        prevented := true;
        return;
      }

      isGoingUp := dy < 0;
      isGoingLeft := dx < 0;

      if Abs(dx) > Abs(dy) {
        if !isVertical {
          prevented := true;
        } else {
          return;
        }
      }

      if Abs(dy) >= MinWheelDelta || Abs(dx) >= MinWheelDelta {
        if isGoingUp || isGoingLeft {
          nav := Prev;
        } else {
          nav := Next;
        }
        prevented := true;
      }
    }

    /** A wheel event reaching the container: handled only if the listener exists. */
    method DispatchWheel(isMoving: bool, dx: int, dy: int) returns (nav: Nav, prevented: bool)
      modifies this
      ensures (Model(), Output(nav, prevented)) == Step(Cfg(), old(Model()), Wheel(isMoving, dx, dy))
    {
      if wheelListening {
        nav, prevented := OnMouseWheel(isMoving, dx, dy);
      } else {
        nav, prevented := Stay, false;
      }
    }

    /** The host's slide-change notification: handled only if the listener exists. */
    method DispatchSlideChange()
      modifies this
      ensures (Model(), Quiet) == Step(Cfg(), old(Model()), SlideChange)
    {
      if slideChangeListening {
        OnSlideChange();
      }
    }
  }

  /** A horizontal presentation on a desktop: a slide change blocks even a large
      scroll until its timer fires, after which the same scroll goes back. */
  method SlideChangeThenScroll() returns (blocked: Output, resumed: Output)
    ensures blocked == Output(Stay, true)
    ensures resumed == Output(Prev, true)
  {
    var scroll := new Scroll(false, false);
    scroll.DispatchSlideChange();
    var nav, prevented := scroll.DispatchWheel(false, 0, -50);
    blocked := Output(nav, prevented);
    scroll.TimerFires();
    nav, prevented := scroll.DispatchWheel(false, 0, -50);
    resumed := Output(nav, prevented);
  }
}
