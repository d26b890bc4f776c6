# Nested scroll handoff (progscrol) in Dafny

This project models the core of `progscrol`, an iOS sample in which an outer
scroll view hosts one inner scroll view and a single pan gesture drives both
as if they were one surface. The outer panel scrolls until the inner panel's
top edge (`iScroll.frame.minY`) reaches the viewport. Then the inner panel
takes over. If the gesture reverses past that edge, the outer panel takes the
scroll back in the same update. When the finger lifts, a momentum animator
replays constant-deceleration motion through the same offset logic. It stops
at the outer panel's top, at the inner panel's bottom, or when the motion is
spent.

`CGFloat` is modelled as exact `real`. The display-link clock is an explicit
elapsed time. The gesture recognizer is an explicit `Event`, which is a pan
phase with its vertical translation and velocity.

Modules:

- `Reals` holds `Abs`, `Min` and `Max`.
- `Kinematics` holds v(t) = |v0| - a*t and s(t) = |v0*t| - a*t*t/2, with their
  growth and bound lemmas.
- `ScrollAnimator` models `ScrollViewScrollAnimator`: `Start`, `Stop`, one
  display-link frame `Tick`, and a series of frames `Run`. The handler is a
  pure function. It returns the caller's new state and whether it called
  `stop()`. The `delivered` field records every value passed to the handler.
- `OffsetHandoff` models `calculateContentOffset`, `handleContentOffset` and
  `updateInitials`, together with the `Consistent` invariant the handoff keeps.
- `OuterScrollView` models the pan phases, the momentum callback of
  `animateVelocity`, and the replay of any event series.

The lock is not cleared on `.began`, exactly as `customPanGesturePanned` does.
`OffsetHandoff.LockIsRedundant` shows that this cannot be observed. In every
consistent state, the lock is only held when the live outer offset has
reached the inner top, and that condition selects the inner branch anyway.

The displacement s(t) is not monotone over a whole run. It grows while
v(t) >= 0 (`Kinematics.DisplacementGrowsWhileMoving`) and never exceeds
v0²/(2a) (`Kinematics.DisplacementBounded`). For t > 0, a tick's displacement
test can only fire when its velocity test fires too. So the velocity test
decides when a run ends, except for a frame at exactly t = 0, where s(0) = 0
ends the run.

## Model

| member | source | states |
|---|---|---|
| `OffsetHandoff.Candidate` | progscrol/ScrollViews.swift:145-147 | The candidate plus the translation is the sum of the two snapshotted offsets: the translation enters negated |
| `OffsetHandoff.CalculateContentOffset` | progscrol/ScrollViews.swift:139-176 | At least one branch runs, and a branch that does not run leaves its panel unchanged. The inner offset is never above innerContentHeight - innerFrameHeight, and is never negative when that bound is not. The outer offset is never above outerContentHeight - outerFrameHeight or the inner top, and is never negative when both are not. Within range each panel tracks the candidate initialOuter - translation + initialInner exactly. Outside it each saturates: the inner panel at 0 on a handback and at innerContentHeight - innerFrameHeight on an overshoot, the outer panel at 0 below the top and at the lower of its two bounds above them. The lock ends set iff the inner branch ran with the candidate below the inner top. A handback (relative offset <= 0) forces the outer branch in the same call, and a held lock leaves the outer offset alone. |
| `OffsetHandoff.HandleContentOffset` | progscrol/ScrollViews.swift:178-185 | Writing the calculation back keeps the snapshots and preserves the consistent-state invariant: offsets in range, outer never past the inner top, lock only at the inner top, inner at rest while the outer is above the inner top |
| `OffsetHandoff.UpdateInitials` | progscrol/ScrollViews.swift:109-113 | The snapshots become the live offsets; the live offsets and the lock are unchanged |
| `OffsetHandoff.ShortInnerContentGoesNegative` | progscrol/ScrollViews.swift:154-155 | With inner content 400 in a 600 viewport, 50 points past the inner top give the inner panel offset -200: the inner clamp has no floor at zero |
| `OffsetHandoff.ShortOuterContentGoesNegative` | progscrol/ScrollViews.swift:169-172 | With outer content 400 in a 600 viewport, a 50-point drag gives the outer panel offset -200: the outer maximum is applied after the floor |
| `OffsetHandoff.LockIsRedundant` | progscrol/ScrollViews.swift:153-168 | In a consistent state the result equals the result with the lock cleared, so the lock that `.began` leaves set cannot change anything |
| `OffsetHandoff.ZeroTranslationKeepsOffsets` | progscrol/ScrollViews.swift:145-172 | Re-applying a fresh snapshot with zero translation moves neither panel |
| `OffsetHandoff.SecondUpdateSettles` | progscrol/ScrollViews.swift:145-172 | Two updates with the same translation put the panels where one seamless surface at the candidate offset would be: the outer panel up to the inner top, the rest in the inner panel, clamped. A third update changes nothing. |
| `OffsetHandoff.OuterScrollsFirst` | progscrol/ScrollViews.swift:168-173 | Dragging up 100 points from the top with the inner top at 500 gives outer 100, inner 0, unlocked |
| `OffsetHandoff.InnerTakesOver` | progscrol/ScrollViews.swift:153-165 | With the outer panel at the inner top, a further 50 points give inner 50 and lock, with the outer panel kept |
| `OffsetHandoff.ReverseHandsBack` | progscrol/ScrollViews.swift:159-173 | Reversing past the inner top from a locked state zeroes the inner panel, unlocks, and moves the outer panel in the same call |
| `Kinematics.UnsignedVelocity` | progscrol/ScrollViews.swift:224 | v(0) is the release speed abs(v0); for a >= 0 and t >= 0 it never exceeds it, and for a > 0, t > 0 it is strictly below it |
| `Kinematics.UnsignedDisplacement` | progscrol/ScrollViews.swift:225 | For t >= 0, s(t) = abs(v0)*t - a*t*t/2, and s(0) = 0 |
| `Kinematics.VelocityNonIncreasing` | progscrol/ScrollViews.swift:224 | v(t) = abs(v0) - a*t is non-increasing in t when a >= 0 |
| `Kinematics.DisplacementIncrement` | progscrol/ScrollViews.swift:224-225 | s(t2) - s(t1) equals (t2 - t1) times the mean of v(t1) and v(t2) for t1, t2 >= 0 |
| `Kinematics.DisplacementGrowsWhileMoving` | progscrol/ScrollViews.swift:224-225 | s(t) is non-decreasing on any interval whose end still has v >= 0 |
| `Kinematics.DisplacementBounded` | progscrol/ScrollViews.swift:225 | 2a*s(t) <= v0² for a > 0: a run never travels further than v0²/(2a) |
| `Kinematics.DisplacementStopImpliesVelocityStop` | progscrol/ScrollViews.swift:224-230 | For t > 0 and a >= 0, s(t) <= 0 implies v(t) <= 0 |
| `Kinematics.RestTimeReached` | progscrol/ScrollViews.swift:224 | Once t >= abs(v0)/a (a > 0) the velocity is spent |
| `ScrollAnimator.SignedDisplacement` | progscrol/ScrollViews.swift:226 | The handler's argument is s(t) for sign +1 and -s(t) for sign -1, and 0 at t = 0 |
| `ScrollAnimator.Start` | progscrol/ScrollViews.swift:204-214 | Start makes the run active with the given sign, velocity and deceleration |
| `ScrollAnimator.Stop` | progscrol/ScrollViews.swift:216-219 | Stop leaves no active run and keeps the run parameters |
| `ScrollAnimator.StopIdempotent` | progscrol/ScrollViews.swift:216-219 | Stopping twice is stopping once, and stopping an inactive animator changes nothing |
| `ScrollAnimator.Tick` | progscrol/ScrollViews.swift:221-233 | An inactive animator calls nothing and changes nothing. An active one calls the handler exactly once with sign*(abs(v*t) - a*t*t/2), and stays active iff the handler did not stop it and both s(t) and v(t) are positive. A stop from inside the handler is honoured before the post-tick check. |
| `ScrollAnimator.Run` | progscrol/ScrollViews.swift:221-233 | Over a series of frames the handler is called at most once per frame, with the i-th value equal to sign*s(times[i]). A run still active at the end received every frame, and an inactive animator delivers nothing. The handler's state is the result of feeding it exactly the delivered values, in order. |
| `ScrollAnimator.RunDeliversEveryFrame` | progscrol/ScrollViews.swift:221-233 | While the handler never stops the run and every frame has positive s(t) and v(t), the run stays active, every frame reaches the handler with sign*s(t), and the handler's state is threaded through all of them |
| `ScrollAnimator.RunEndsByRestTime` | progscrol/ScrollViews.swift:224-232 | With a > 0, the run is over after the first frame whose elapsed time reaches abs(v0)/a, and no later frame reaches the handler |
| `OuterScrollView.Sign` | progscrol/ScrollViews.swift:119 | For a non-zero translation the sign is translation/abs(translation), is ±1, and sign/abs(sign) is the sign again |
| `OuterScrollView.MomentumHandler` | progscrol/ScrollViews.swift:125-136 | The callback applies the displacement through the handoff. It asks to stop iff the outer offset is <= 0 or the inner offset is >= its maximum. From a consistent state that means exactly that the outer top or the inner bottom was reached. |
| `OuterScrollView.OnBegan` | progscrol/ScrollViews.swift:88-91 | `.began` stops the animator, snapshots the live offsets, then applies the translation. From rest in a consistent state, zero translation moves nothing. |
| `OuterScrollView.OnChanged` | progscrol/ScrollViews.swift:93-94 | `.changed` applies the translation against the `.began` snapshot through the handoff, keeps the animator and the snapshots, and preserves consistency. While the lock holds below the inner top the outer offset stays and the inner offset follows the candidate minus the inner top. |
| `OuterScrollView.OnReleased` | progscrol/ScrollViews.swift:96-102 | `.cancelled`/`.ended` apply the translation, re-snapshot, and start a run with sign of the translation, the release velocity and deceleration decelerationRate*1000 |
| `OuterScrollView.OnFrame` | progscrol/ScrollViews.swift:125-136 | A frame with no run changes nothing. With a run, it applies sign*s(t) once through the handoff, and the run survives iff the outer offset stays > 0, the inner offset stays below its maximum, and s(t) and v(t) are positive. |
| `OuterScrollView.Step` | progscrol/ScrollViews.swift:83-107 | Dispatch by phase preserves the consistent-state invariant; the phases the source ignores change nothing |
| `OuterScrollView.InitialConsistent` | progscrol/ScrollViews.swift:54-58 | The initial state (zero offsets and snapshots, lock off, no run, normal deceleration rate) is consistent for any well-formed layout, and so is every state reached from it |
| `OuterScrollView.ReplayKeepsConsistent` | progscrol/ScrollViews.swift:83-185 | After any series of pan events and frames from a consistent state, the panels are still within range and the lock is only held at the inner top |

## Left out

- `ScrollDisabledScrollView.gestureRecognizerShouldBegin`, the pan-recognizer setup and the reading of translation and velocity (progscrol/ScrollViews.swift:14-25, 62-85): platform wiring. Phase, translation and velocity are `Event` inputs.
- `CADisplayLink` scheduling and `CACurrentMediaTime` (progscrol/ScrollViews.swift:210-213, 223): a platform clock. The elapsed time is passed in.
- `progscrol/ViewController.swift`: view styling and setting the static reference only.
- The static weak `Reference.iScroll`, the `guard`s on it and the `fatalError` when it is nil (progscrol/ScrollViews.swift:34, 110, 116, 140, 184): the inner panel is always present, as the `Layout` argument. The `[weak self]` guard in the callback is left out for the same reason.
- `FinalOffsetCalculation.current` (progscrol/ScrollViews.swift:46-51): never called.
- Horizontal components: only `.y` of translation, velocity and offsets is used by the logic. `handleContentOffset` writes x = 0.
- IEEE floating point, NaN and `pow`: exact real arithmetic, with `t*t` for `pow(t, 2.0)`.
- `OuterScrollView.OnReleased`: with zero translation `animateVelocity` computes 0/0 as the sign and runs the animator with NaN displacements. The model starts no run in that case.
- `ScrollAnimator.Start`: `ScrollViewScrollAnimator.start` replaces the link without invalidating an earlier one. The model has a single active flag. In this system `start` is only reached after `.began` has stopped the animator.
- `ScrollAnimator.Tick`: the handler may only stop the animator, not restart it. That is all the one handler in this system does.
- `OffsetHandoff.HandleContentOffset`: its invariant clause assumes `WellFormed` layouts, where each panel's content is at least as tall as its viewport. With shorter content, `calculateContentOffset` writes negative offsets (`min(relativeOffset, innerMax)` and `min(max(x, 0), outerMax)` with a negative maximum). It does not clamp to [0, 0]. `OffsetHandoff.ShortInnerContentGoesNegative` and `OffsetHandoff.ShortOuterContentGoesNegative` exhibit this. The model keeps the negative offsets.
- `OuterScrollView.ReplayKeepsConsistent`: it holds only for `WellFormed` layouts, for the same reason as `OffsetHandoff.HandleContentOffset`.
- `OffsetHandoff.SecondUpdateSettles`: it assumes the outer panel can scroll far enough to bring the inner top to the viewport (innerMinY <= outerContentHeight - outerFrameHeight). Otherwise the handoff never happens.
