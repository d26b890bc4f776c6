/** The pan-gesture phases of the outer scroll view and the momentum callback
    that feeds animator frames back into the offset handoff. The gesture
    recognizer, the display link and the inner-panel reference are replaced by
    explicit inputs: a phase with its translation and velocity, a frame with
    its elapsed time, and a `Layout` that is always present. */
module OuterScrollView {
  import opened Reals
  import opened Kinematics
  import opened ScrollAnimator
  import opened OffsetHandoff

  /** `UIGestureRecognizer.State`; `Other` covers the states that
      `customPanGesturePanned` ignores. */
  datatype Phase = Began | Changed | Cancelled | Ended | Other

  /** Everything the view reacts to: a pan sample (vertical translation and
      velocity), or a display-link frame at the time elapsed since the
      momentum run started. */
  datatype Event =
    | Pan(phase: Phase, translation: real, velocity: real)
    | Frame(elapsed: real)

  /** The outer scroll view's state: offsets, snapshots and lock, its
      animator, and its configured `decelerationRate.rawValue`. */
  datatype OuterScroll = OuterScroll(scroll: ScrollState, animator: Animator, decelerationRate: real)

  /** UIKit's normal deceleration rate. */
  const NormalDecelerationRate: real := 0.998

  /** Initial state: everything at zero, unlocked, no run. */
  const Initial := OuterScroll(ScrollState(0.0, 0.0, 0.0, 0.0, false), Idle, NormalDecelerationRate)

  /** `translation.y / abs(translation.y)`, undefined at zero. */
  function Sign(translation: real): (r: real)
    requires translation != 0.0
    ensures r == translation / Abs(translation)
    ensures r == 1.0 || r == -1.0
    ensures r * Abs(translation) == translation
    ensures r / Abs(r) == r
  {
    if translation > 0.0 then 1.0 else -1.0
  }

  /** The momentum handler: apply the displacement as a translation, then ask
      to stop at the outer panel's top or the inner panel's bottom. */
  function MomentumHandler(s: ScrollState, displacement: real, l: Layout): (r: (ScrollState, bool))
    ensures r.0 == HandleContentOffset(s, displacement, l)
    ensures r.1 <==> r.0.outer <= 0.0 || r.0.inner >= InnerMax(l)
    // from a consistent state, stopping means exactly that a boundary was reached
    ensures Consistent(s, l) ==> (r.1 <==> r.0.outer == 0.0 || r.0.inner == InnerMax(l))
  {
    var s' := HandleContentOffset(s, displacement, l);
    if s'.outer <= 0.0 then (s', true)
    else if s'.inner >= InnerMax(l) then (s', true)
    else (s', false)
  }

  /** `.began`: stop the animator, snapshot, apply. The lock is not cleared. */
  function OnBegan(o: OuterScroll, translation: real, l: Layout): (r: OuterScroll)
    ensures !r.animator.active
    ensures r.scroll == HandleContentOffset(UpdateInitials(o.scroll), translation, l)
    ensures r.scroll.initialOuter == o.scroll.outer && r.scroll.initialInner == o.scroll.inner
    // starting from rest does not move anything
    ensures Consistent(o.scroll, l) && translation == 0.0 ==>
      r.scroll.outer == o.scroll.outer && r.scroll.inner == o.scroll.inner
  {
    var stopped := Stop(o.animator);
    var s := UpdateInitials(o.scroll);
    OuterScroll(HandleContentOffset(s, translation, l), stopped, o.decelerationRate)
  }

  /** `.changed`: apply the translation against the snapshot taken at `.began`. */
  function OnChanged(o: OuterScroll, translation: real, l: Layout): (r: OuterScroll)
    ensures r.animator == o.animator
    ensures r.scroll == HandleContentOffset(o.scroll, translation, l)
    ensures r.scroll.initialOuter == o.scroll.initialOuter
    ensures r.scroll.initialInner == o.scroll.initialInner
    ensures Consistent(o.scroll, l) ==> Consistent(r.scroll, l)
    // while the inner panel holds the scroll below its top, only the inner offset moves
    ensures o.scroll.innerLock && Candidate(translation, o.scroll) > l.innerMinY ==>
      r.scroll.outer == o.scroll.outer && r.scroll.innerLock
    ensures o.scroll.innerLock && 0.0 <= Candidate(translation, o.scroll) - l.innerMinY <= InnerMax(l) ==>
      r.scroll.inner == Candidate(translation, o.scroll) - l.innerMinY
  {
    o.(scroll := HandleContentOffset(o.scroll, translation, l))
  }

  /** `.cancelled` and `.ended`: apply, then `animateVelocity` snapshots the
      offsets and starts momentum with deceleration rate * 1000 in the
      direction of the translation. A zero translation starts no run. */
  function OnReleased(o: OuterScroll, translation: real, velocity: real, l: Layout): (r: OuterScroll)
    ensures var applied := HandleContentOffset(o.scroll, translation, l);
            r.scroll == UpdateInitials(applied)
    ensures translation != 0.0 ==>
      r.animator == Animator(true, Sign(translation), velocity, o.decelerationRate * 1000.0)
    ensures translation == 0.0 ==> r.animator == o.animator
  {
    var applied := HandleContentOffset(o.scroll, translation, l);
    var snapped := UpdateInitials(applied);
    if translation == 0.0 then o.(scroll := snapped)
    else
      var sign := Sign(translation);
      var deceleration := o.decelerationRate * 1000.0;
      o.(scroll := snapped, animator := Start(o.animator, sign / Abs(sign), velocity, deceleration))
  }

  /** One display-link frame: the animator ticks with the momentum handler. */
  function OnFrame(o: OuterScroll, elapsed: real, l: Layout): (r: OuterScroll)
    ensures !o.animator.active ==> r == o
    // the displacement of this frame goes through the handoff exactly once
    ensures o.animator.active ==>
      r.scroll == HandleContentOffset(o.scroll, SignedDisplacement(o.animator, elapsed), l)
    // the run survives iff no boundary was reached and the motion is not spent
    ensures o.animator.active ==>
      (r.animator.active <==>
         r.scroll.outer > 0.0 && r.scroll.inner < InnerMax(l)
         && UnsignedDisplacement(o.animator.velocity, o.animator.deceleration, elapsed) > 0.0
         && UnsignedVelocity(o.animator.velocity, o.animator.deceleration, elapsed) > 0.0)
    ensures r.animator.active ==> o.animator.active
    ensures r.decelerationRate == o.decelerationRate
  {
    var t := Tick(o.animator, elapsed, o.scroll, (d, s) => MomentumHandler(s, d, l));
    o.(scroll := t.state, animator := t.animator)
  }

  /** `customPanGesturePanned` and the display link, one event at a time. */
  function Step(o: OuterScroll, e: Event, l: Layout): (r: OuterScroll)
    ensures Consistent(o.scroll, l) ==> Consistent(r.scroll, l)
    ensures e.Pan? && e.phase == Other ==> r == o
  {
    match e
    case Pan(phase, translation, velocity) =>
      (match phase
       case Began => OnBegan(o, translation, l)
       case Changed => OnChanged(o, translation, l)
       case Cancelled => OnReleased(o, translation, velocity, l)
       case Ended => OnReleased(o, translation, velocity, l)
       case Other => o)
    case Frame(elapsed) => OnFrame(o, elapsed, l)
  }

  /** The state after a whole series of events. */
  function Replay(o: OuterScroll, events: seq<Event>, l: Layout): OuterScroll
    decreases |events|
  {
    if |events| == 0 then o else Replay(Step(o, events[0], l), events[1..], l)
  }

  /** Whatever the events, the panels stay within their ranges, the outer
      panel never scrolls past the inner top, and the lock is only held with
      the inner top reached. */
  lemma {:induction false} ReplayKeepsConsistent(o: OuterScroll, events: seq<Event>, l: Layout)
    requires Consistent(o.scroll, l)
    ensures Consistent(Replay(o, events, l).scroll, l)
    decreases |events|
  {
    if |events| > 0 {
      ReplayKeepsConsistent(Step(o, events[0], l), events[1..], l);
    }
  }

  /** The view starts consistent, so every state it reaches is. */
  lemma InitialConsistent(l: Layout, events: seq<Event>)
    requires WellFormed(l)
    ensures Consistent(Initial.scroll, l) && !Initial.animator.active
    ensures Initial.decelerationRate == NormalDecelerationRate
    ensures Consistent(Replay(Initial, events, l).scroll, l)
  {
    ReplayKeepsConsistent(Initial, events, l);
  }
}
