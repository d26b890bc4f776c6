/** The offset handoff of the outer scroll view: one translation of the pan
    gesture (or of a momentum frame) is turned into new content offsets for
    the outer panel and the nested inner panel, and the one-bit
    `innerScrollLock` decides which panel owns the scroll. */
module OffsetHandoff {
  import opened Reals

  /** The geometry read from the two panels, which this logic never writes.
      `innerMinY` is `iScroll.frame.minY`, the inner panel's top edge in the
      outer panel's content coordinates. */
  datatype Layout = Layout(
    outerContentHeight: real, outerFrameHeight: real,
    innerMinY: real,
    innerContentHeight: real, innerFrameHeight: real)

  /** The live offsets of both panels, the offsets snapshotted by
      `updateInitials`, and the lock. */
  datatype ScrollState = ScrollState(
    outer: real, inner: real,
    initialOuter: real, initialInner: real,
    innerLock: bool)

  /** `OuterScroll.FinalOffsetCalculation` plus the lock value it leaves behind. */
  datatype FinalOffsets = FinalOffsets(outer: real, inner: real, innerLock: bool)

  /** Largest offset at which the outer panel is still filled. */
  function OuterMax(l: Layout): real
  {
    l.outerContentHeight - l.outerFrameHeight
  }

  /** Largest offset at which the inner panel is still filled. */
  function InnerMax(l: Layout): real
  {
    l.innerContentHeight - l.innerFrameHeight
  }

  /** Panels at least as tall as their viewports, inner top below the outer top. */
  predicate WellFormed(l: Layout)
  {
    OuterMax(l) >= 0.0 && InnerMax(l) >= 0.0 && l.innerMinY >= 0.0
  }

  /** The translation is negated and added to both snapshotted offsets. */
  function Candidate(translation: real, s: ScrollState): (r: real)
    ensures r + translation == s.initialOuter + s.initialInner
  {
    s.initialOuter + (-translation) + s.initialInner
  }

  /** The candidate measured from the inner panel's top, floored at zero. */
  function RelativeOffset(translation: real, s: ScrollState, l: Layout): real
  {
    Max(0.0, Candidate(translation, s) - l.innerMinY)
  }

  /** The inner panel takes the scroll when the live outer offset has reached
      its top edge, or while the lock holds. */
  predicate InnerBranchRuns(s: ScrollState, l: Layout)
  {
    s.outer >= l.innerMinY || s.innerLock
  }

  /** The inner branch ran and found the candidate back above the inner top. */
  predicate Handback(translation: real, s: ScrollState, l: Layout)
  {
    InnerBranchRuns(s, l) && RelativeOffset(translation, s, l) <= 0.0
  }

  /** The outer panel scrolls when it is above the inner top and unlocked,
      or when the inner panel hands back in the same call. */
  predicate OuterBranchRuns(translation: real, s: ScrollState, l: Layout)
  {
    (s.outer < l.innerMinY && !s.innerLock) || Handback(translation, s, l)
  }

  /** `calculateContentOffset`. The outer branch reads the lock as the inner
      branch left it, and both branches test the live outer offset. */
  function CalculateContentOffset(translation: real, s: ScrollState, l: Layout): (r: FinalOffsets)
    // never neither branch
    ensures InnerBranchRuns(s, l) || OuterBranchRuns(translation, s, l)
    // a branch that does not run leaves its panel where it is
    ensures !InnerBranchRuns(s, l) ==> r.inner == s.inner
    ensures !OuterBranchRuns(translation, s, l) ==> r.outer == s.outer
    // inner branch: never past the inner maximum, never negative when that maximum is not
    ensures InnerBranchRuns(s, l) ==> r.inner <= InnerMax(l)
    ensures InnerBranchRuns(s, l) && InnerMax(l) >= 0.0 ==> 0.0 <= r.inner
    // outside its range the inner panel saturates: 0 on handback, InnerMax on overshoot
    ensures Handback(translation, s, l) && InnerMax(l) >= 0.0 ==> r.inner == 0.0
    ensures InnerBranchRuns(s, l) && Candidate(translation, s) - l.innerMinY >= InnerMax(l)
            ==> r.inner == InnerMax(l)
    // inside its range the inner panel follows the finger exactly
    ensures InnerBranchRuns(s, l) && 0.0 <= Candidate(translation, s) - l.innerMinY <= InnerMax(l)
            ==> r.inner == Candidate(translation, s) - l.innerMinY
    // outer branch: never past its own maximum nor past the inner top
    ensures OuterBranchRuns(translation, s, l) ==> r.outer <= OuterMax(l) && r.outer <= l.innerMinY
    ensures OuterBranchRuns(translation, s, l) && OuterMax(l) >= 0.0 && l.innerMinY >= 0.0
            ==> 0.0 <= r.outer
    // outside its range the outer panel saturates at 0 or at the lower of its two bounds
    ensures OuterBranchRuns(translation, s, l) && Candidate(translation, s) <= 0.0
            && OuterMax(l) >= 0.0 && l.innerMinY >= 0.0
            ==> r.outer == 0.0
    ensures OuterBranchRuns(translation, s, l)
            && Candidate(translation, s) >= Min(OuterMax(l), l.innerMinY)
            ==> r.outer == Min(OuterMax(l), l.innerMinY)
    // inside its range the outer panel follows the finger exactly
    ensures OuterBranchRuns(translation, s, l)
            && 0.0 <= Candidate(translation, s) <= OuterMax(l)
            && Candidate(translation, s) <= l.innerMinY
            ==> r.outer == Candidate(translation, s)
    // lock rule: locked afterwards iff the inner panel owns the scroll below its top
    ensures r.innerLock <==> InnerBranchRuns(s, l) && Candidate(translation, s) > l.innerMinY
    // handback forces the outer branch in the same call; holding leaves the outer panel alone
    ensures Handback(translation, s, l) ==> OuterBranchRuns(translation, s, l) && !r.innerLock
    ensures InnerBranchRuns(s, l) && Candidate(translation, s) > l.innerMinY ==> r.outer == s.outer
  {
    var newContentOffset := Candidate(translation, s);
    var innerRuns := s.outer >= l.innerMinY || s.innerLock;
    var relativeOffset := Max(0.0, newContentOffset - l.innerMinY);
    var inner := if innerRuns then Min(relativeOffset, InnerMax(l)) else s.inner;
    var lock := if innerRuns then relativeOffset > 0.0 else s.innerLock;
    var forceHandleScrollUp := innerRuns && relativeOffset <= 0.0;
    var outer :=
      if (s.outer < l.innerMinY && !lock) || forceHandleScrollUp
      then Min(Min(Max(newContentOffset, 0.0), OuterMax(l)), l.innerMinY)
      else s.outer;
    FinalOffsets(outer, inner, lock)
  }

  /** `handleContentOffset`: the calculation is written back to both panels;
      the snapshots are untouched. */
  function HandleContentOffset(s: ScrollState, translation: real, l: Layout): (r: ScrollState)
    ensures r.initialOuter == s.initialOuter && r.initialInner == s.initialInner
    ensures Consistent(s, l) ==> Consistent(r, l)
  {
    var c := CalculateContentOffset(translation, s, l);
    ScrollState(c.outer, c.inner, s.initialOuter, s.initialInner, c.innerLock)
  }

  /** `updateInitials`: snapshot the live offsets. */
  function UpdateInitials(s: ScrollState): (r: ScrollState)
    ensures r.initialOuter == s.outer && r.initialInner == s.inner
    ensures r.outer == s.outer && r.inner == s.inner && r.innerLock == s.innerLock
  {
    s.(initialOuter := s.outer, initialInner := s.inner)
  }

  /** The states the handoff keeps: both offsets in range, the outer panel
      never past the inner top, the lock only held with the inner top reached,
      and the inner panel at rest while the outer panel is above its top. */
  predicate Consistent(s: ScrollState, l: Layout)
  {
    && WellFormed(l)
    && 0.0 <= s.outer <= OuterMax(l) && s.outer <= l.innerMinY
    && 0.0 <= s.inner <= InnerMax(l)
    && (s.innerLock ==> s.outer >= l.innerMinY)
    && (s.outer < l.innerMinY ==> s.inner == 0.0)
  }

  /** Where a single seamless surface scrolled to `c` would show the two
      panels, given the outer panel can bring the inner top to the viewport. */
  function Seamless(c: real, l: Layout): (real, real)
  {
    if c <= l.innerMinY then (Max(c, 0.0), 0.0)
    else (l.innerMinY, Min(c - l.innerMinY, InnerMax(l)))
  }

  /** In a consistent state the lock changes nothing: the result is the same
      as with the lock cleared. So not clearing the lock when a new gesture
      begins cannot be observed. */
  lemma LockIsRedundant(translation: real, s: ScrollState, l: Layout)
    requires Consistent(s, l)
    ensures CalculateContentOffset(translation, s, l)
         == CalculateContentOffset(translation, s.(innerLock := false), l)
  {
  }

  /** Re-applying the snapshot with no movement leaves both panels in place. */
  lemma ZeroTranslationKeepsOffsets(s: ScrollState, l: Layout)
    requires Consistent(s, l)
    requires s.initialOuter == s.outer && s.initialInner == s.inner
    ensures HandleContentOffset(s, 0.0, l).outer == s.outer
    ensures HandleContentOffset(s, 0.0, l).inner == s.inner
  {
  }

  /** Two updates with the same translation land on the seamless position of
      the candidate, and a third changes nothing: the handoff lags one update
      at the inner top and then catches up. */
  lemma SecondUpdateSettles(s: ScrollState, translation: real, l: Layout)
    requires Consistent(s, l) && l.innerMinY <= OuterMax(l)
    ensures var s2 := HandleContentOffset(HandleContentOffset(s, translation, l), translation, l);
            (s2.outer, s2.inner) == Seamless(Candidate(translation, s), l)
    ensures var s2 := HandleContentOffset(HandleContentOffset(s, translation, l), translation, l);
            var s3 := HandleContentOffset(s2, translation, l);
            s3.outer == s2.outer && s3.inner == s2.inner
  {
  }

  /** Dragging 100 points up from the top scrolls only the outer panel. */
  lemma OuterScrollsFirst()
    ensures var l := Layout(2000.0, 800.0, 500.0, 3000.0, 600.0);
            var s := ScrollState(0.0, 0.0, 0.0, 0.0, false);
            CalculateContentOffset(-100.0, s, l) == FinalOffsets(100.0, 0.0, false)
  {
  }

  /** With the outer panel at the inner top, 50 more points go to the inner panel. */
  lemma InnerTakesOver()
    ensures var l := Layout(2000.0, 800.0, 500.0, 3000.0, 600.0);
            var s := ScrollState(500.0, 0.0, 500.0, 0.0, false);
            CalculateContentOffset(-50.0, s, l) == FinalOffsets(500.0, 50.0, true)
  {
  }

  /** Reversing past the inner top unlocks and moves the outer panel in the same call. */
  lemma ReverseHandsBack()
    ensures var l := Layout(2000.0, 800.0, 500.0, 3000.0, 600.0);
            var s := ScrollState(500.0, 50.0, 500.0, 0.0, true);
            CalculateContentOffset(80.0, s, l) == FinalOffsets(420.0, 0.0, false)
  {
  }

  /** Inner content shorter than its viewport: the inner clamp has no floor
      at zero, so the inner panel is given a negative offset. */
  lemma ShortInnerContentGoesNegative()
    ensures var l := Layout(2000.0, 800.0, 500.0, 400.0, 600.0);
            var s := ScrollState(500.0, 0.0, 500.0, 0.0, false);
            !WellFormed(l) && CalculateContentOffset(-50.0, s, l).inner == -200.0
  {
  }

  /** Outer content shorter than its viewport: the outer clamp applies its
      maximum last, so the outer panel is given a negative offset. */
  lemma ShortOuterContentGoesNegative()
    ensures var l := Layout(400.0, 600.0, 500.0, 3000.0, 600.0);
            var s := ScrollState(0.0, 0.0, 0.0, 0.0, false);
            !WellFormed(l) && CalculateContentOffset(-50.0, s, l).outer == -200.0
  {
  }
}
