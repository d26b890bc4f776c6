/** The momentum animator of the outer scroll view. A run is active while its
    display link exists; every frame of the link is a `Tick` at the time
    elapsed since `Start`. The handler receives the signed displacement and
    may ask the animator to stop (`linkTicked` passes the animator itself to
    the handler, which then calls `stop()`). */
module ScrollAnimator {
  import opened Reals
  import opened Kinematics

  /** `active` stands for the display link being non-nil. */
  datatype Animator = Animator(active: bool, sign: real, velocity: real, deceleration: real)

  /** A freshly initialised animator: sign 1, zero velocity and deceleration, no link. */
  const Idle := Animator(false, 1.0, 0.0, 0.0)

  /** The outcome of driving the animator: the animator afterwards, the
      handler's state afterwards, and the displacements passed to the handler,
      in call order. */
  datatype TickResult<S> = TickResult(animator: Animator, state: S, delivered: seq<real>)

  /** The value a frame at elapsed time `t` hands to the handler. */
  function SignedDisplacement(a: Animator, t: real): (r: real)
    ensures a.sign == 1.0 ==> r == UnsignedDisplacement(a.velocity, a.deceleration, t)
    ensures a.sign == -1.0 ==> r == -UnsignedDisplacement(a.velocity, a.deceleration, t)
    ensures t == 0.0 ==> r == 0.0
  {
    a.sign * UnsignedDisplacement(a.velocity, a.deceleration, t)
  }

  function Start(a: Animator, sign: real, velocity: real, deceleration: real): (r: Animator)
    ensures r.active
    ensures r.sign == sign && r.velocity == velocity && r.deceleration == deceleration
  {
    Animator(true, sign, velocity, deceleration)
  }

  /** Invalidates the link; the run parameters are kept. */
  function Stop(a: Animator): (r: Animator)
    ensures !r.active
    ensures r.sign == a.sign && r.velocity == a.velocity && r.deceleration == a.deceleration
  {
    a.(active := false)
  }

  lemma StopIdempotent(a: Animator)
    ensures Stop(Stop(a)) == Stop(a)
    ensures !a.active ==> Stop(a) == a
  {
  }

  /** One display-link frame at elapsed time `t`. */
  function Tick<S>(a: Animator, t: real, s: S, handler: (real, S) -> (S, bool)): (r: TickResult<S>)
    // no link, no frame: nothing is called and nothing changes
    ensures !a.active ==> r == TickResult(a, s, [])
    // an active run calls the handler exactly once, with sign * s(t)
    ensures a.active ==> r.delivered == [SignedDisplacement(a, t)]
    ensures a.active ==> r.state == handler(r.delivered[0], s).0
    // it stays active iff the handler did not stop it and both s(t) and v(t) are still positive
    ensures a.active ==>
      (r.animator.active <==>
         !handler(r.delivered[0], s).1
         && UnsignedDisplacement(a.velocity, a.deceleration, t) > 0.0
         && UnsignedVelocity(a.velocity, a.deceleration, t) > 0.0)
    ensures r.animator.sign == a.sign && r.animator.velocity == a.velocity
    ensures r.animator.deceleration == a.deceleration
  {
    if !a.active then TickResult(a, s, [])
    else
      var unsignedNextVelocity := UnsignedVelocity(a.velocity, a.deceleration, t);
      var unsignedDisplacement := UnsignedDisplacement(a.velocity, a.deceleration, t);
      var signedDisplacement := SignedDisplacement(a, t);
      var out := handler(signedDisplacement, s);
      var afterHandler := if out.1 then Stop(a) else a;
      var afterCheck :=
        if (unsignedDisplacement <= 0.0 || unsignedNextVelocity <= 0.0) && afterHandler.active
        then Stop(afterHandler) else afterHandler;
      TickResult(afterCheck, out.0, [signedDisplacement])
  }

  /** The handler's state after it has been called with `ds`, in order,
      ignoring its stop requests. */
  function Feed<S>(handler: (real, S) -> (S, bool), ds: seq<real>, s: S): S
    decreases |ds|
  {
    if |ds| == 0 then s else Feed(handler, ds[1..], handler(ds[0], s).0)
  }

  /** What a run that is never stopped hands to its handler, frame by frame. */
  function FrameDisplacements(a: Animator, times: seq<real>): (ds: seq<real>)
    ensures |ds| == |times|
    ensures forall i :: 0 <= i < |times| ==> ds[i] == SignedDisplacement(a, times[i])
  {
    seq(|times|, i requires 0 <= i < |times| => SignedDisplacement(a, times[i]))
  }

  /** A series of frames at the elapsed times `times`. */
  function Run<S>(a: Animator, times: seq<real>, s: S, handler: (real, S) -> (S, bool)): (r: TickResult<S>)
    ensures |r.delivered| <= |times|
    ensures forall i :: 0 <= i < |r.delivered| ==>
      r.delivered[i] == SignedDisplacement(a, times[i])
    ensures r.animator.active ==> |r.delivered| == |times|
    // the handler's state is threaded through exactly the delivered calls
    ensures r.state == Feed(handler, r.delivered, s)
    ensures !a.active ==> r == TickResult(a, s, [])
    ensures r.animator.sign == a.sign && r.animator.velocity == a.velocity
    ensures r.animator.deceleration == a.deceleration
    decreases |times|
  {
    if |times| == 0 then TickResult(a, s, [])
    else
      var first := Tick(a, times[0], s, handler);
      var rest := Run(first.animator, times[1..], first.state, handler);
      var delivered := first.delivered + rest.delivered;
      assert forall i :: 0 <= i < |delivered| ==>
        delivered[i] == SignedDisplacement(a, times[i]) by {
        if !a.active {
          assert first.animator == a && rest.delivered == [];
        } else {
          forall i | 1 <= i < |delivered|
            ensures delivered[i] == SignedDisplacement(a, times[i])
          {
            assert delivered[i] == rest.delivered[i - 1];
            assert times[1..][i - 1] == times[i];
          }
        }
      }
      assert a.active ==> delivered[1..] == rest.delivered;
      TickResult(rest.animator, rest.state, delivered)
  }

  /** A run with positive deceleration is over after the first frame whose
      elapsed time reaches |v| / a: no later frame reaches the handler. */
  lemma {:induction false} RunEndsByRestTime<S>(a: Animator, times: seq<real>, s: S,
                                                handler: (real, S) -> (S, bool), k: nat)
    requires a.deceleration > 0.0
    requires k < |times| && times[k] >= Abs(a.velocity) / a.deceleration
    ensures !Run(a, times, s, handler).animator.active
    ensures |Run(a, times, s, handler).delivered| <= k + 1
    decreases k
  {
    var first := Tick(a, times[0], s, handler);
    if k == 0 {
      RestTimeReached(a.velocity, a.deceleration, times[0]);
      assert !first.animator.active;
    } else {
      RunEndsByRestTime(first.animator, times[1..], first.state, handler, k - 1);
    }
  }

  /** The other direction: while the handler never asks to stop and every
      frame still has positive displacement and speed, the link keeps
      ticking, every frame reaches the handler and its state is threaded
      through all of them. */
  lemma {:induction false} RunDeliversEveryFrame<S>(a: Animator, times: seq<real>, s: S,
                                                   handler: (real, S) -> (S, bool))
    requires a.active
    requires forall x: real, st: S :: !handler(x, st).1
    requires forall i :: 0 <= i < |times| ==>
      UnsignedDisplacement(a.velocity, a.deceleration, times[i]) > 0.0
      && UnsignedVelocity(a.velocity, a.deceleration, times[i]) > 0.0
    ensures Run(a, times, s, handler).animator.active
    ensures Run(a, times, s, handler).delivered == FrameDisplacements(a, times)
    ensures Run(a, times, s, handler).state == Feed(handler, FrameDisplacements(a, times), s)
    decreases |times|
  {
    if |times| > 0 {
      var first := Tick(a, times[0], s, handler);
      assert first.animator.active;
      assert first.animator.velocity == a.velocity && first.animator.deceleration == a.deceleration;
      RunDeliversEveryFrame(first.animator, times[1..], first.state, handler);
    }
  }
}
