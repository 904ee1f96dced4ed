/** The per-frame effect evaluator (frontend/src/utils/timeline.ts) and the folds the
    renderer's clip components run over a clip's effects. */
module Effects {
  import opened Wrappers
  import opened TimelineTypes

  /** `getClipLocalFrame`: frames since the clip's start. */
  function GetClipLocalFrame(clip: RemotionClip, globalFrame: int): int
  {
    globalFrame - clip.startInFrames
  }

  /** `isEffectActive`. */
  predicate IsEffectActive(effect: Effect, localFrame: int, clipDuration: int)
  {
    match effect.kind
    case FadeIn => localFrame < effect.durationInFrames
    case FadeOut => localFrame >= clipDuration - effect.durationInFrames
    case SlideIn => localFrame < effect.durationInFrames
    case OtherEffect(_) => false
  }

  /** `getEffectProgress` divides by the effect's duration exactly when the effect is active;
      the result is a finite number iff that duration is then non-zero. */
  predicate ProgressDefined(effect: Effect, localFrame: int, clipDuration: int)
  {
    IsEffectActive(effect, localFrame, clipDuration) ==> effect.durationInFrames != 0
  }

  /** `getEffectProgress`. */
  function GetEffectProgress(effect: Effect, localFrame: int, clipDuration: int): real
    requires ProgressDefined(effect, localFrame, clipDuration)
  {
    var d := effect.durationInFrames;
    match effect.kind
    case FadeIn => if localFrame >= d then 1.0 else localFrame as real / d as real
    case FadeOut =>
      var fadeOutStart := clipDuration - d;
      if localFrame < fadeOutStart then 0.0 else (localFrame - fadeOutStart) as real / d as real
    case SlideIn => if localFrame >= d then 1.0 else localFrame as real / d as real
    case OtherEffect(_) => 1.0
  }

  lemma QuotientBelowOne(a: int, d: int)
    requires 0 <= a < d
    ensures 0.0 <= a as real / d as real < 1.0
  {
    assert a as real < d as real;
  }

  lemma QuotientNegative(a: int, d: int)
    requires a < 0 < d
    ensures a as real / d as real < 0.0
  {
    var q := a as real / d as real;
    assert q * d as real == a as real;
  }

  lemma QuotientMonotone(a: int, b: int, d: int)
    requires a <= b && d > 0
    ensures a as real / d as real <= b as real / d as real
  {
    assert (b - a) as real / d as real >= 0.0;
    assert b as real / d as real - a as real / d as real == (b - a) as real / d as real;
  }

  /** Fade-in and slide-in: active exactly before frame `d`; progress `localFrame / d` inside that
      window (0 at frame 0, below 1 at every frame of it), 1 from frame `d` on, and negative
      (not clamped) before frame 0. */
  lemma EntranceProgress(effect: Effect, localFrame: int, clipDuration: int)
    requires effect.kind == FadeIn || effect.kind == SlideIn
    requires effect.durationInFrames > 0
    ensures IsEffectActive(effect, localFrame, clipDuration) <==> localFrame < effect.durationInFrames
    ensures localFrame >= effect.durationInFrames ==> GetEffectProgress(effect, localFrame, clipDuration) == 1.0
    ensures 0 <= localFrame < effect.durationInFrames ==>
              0.0 <= GetEffectProgress(effect, localFrame, clipDuration) < 1.0
    ensures localFrame == 0 ==> GetEffectProgress(effect, localFrame, clipDuration) == 0.0
    ensures localFrame < 0 ==> GetEffectProgress(effect, localFrame, clipDuration) < 0.0
  {
    var d := effect.durationInFrames;
    if localFrame >= d {
      assert GetEffectProgress(effect, localFrame, clipDuration) == 1.0;
    } else if localFrame >= 0 {
      QuotientBelowOne(localFrame, d);
      assert GetEffectProgress(effect, localFrame, clipDuration) == localFrame as real / d as real;
    } else {
      QuotientNegative(localFrame, d);
      assert GetEffectProgress(effect, localFrame, clipDuration) == localFrame as real / d as real;
    }
  }

  /** Fade-out: active from frame `clipDuration - d` on; progress 0 before that frame and
      `(localFrame - (clipDuration - d)) / d` from it, which lies in [0, 1) until the clip ends. */
  lemma ExitProgress(effect: Effect, localFrame: int, clipDuration: int)
    requires effect.kind == FadeOut
    requires effect.durationInFrames > 0
    ensures IsEffectActive(effect, localFrame, clipDuration) <==>
              localFrame >= clipDuration - effect.durationInFrames
    ensures localFrame < clipDuration - effect.durationInFrames ==>
              GetEffectProgress(effect, localFrame, clipDuration) == 0.0
    ensures clipDuration - effect.durationInFrames <= localFrame < clipDuration ==>
              0.0 <= GetEffectProgress(effect, localFrame, clipDuration) < 1.0
  {
    var s := clipDuration - effect.durationInFrames;
    if s <= localFrame < clipDuration {
      QuotientBelowOne(localFrame - s, effect.durationInFrames);
    }
  }

  /** An effect of an unrecognised type is never active and reports progress 1. */
  lemma UnknownEffectInert(effect: Effect, localFrame: int, clipDuration: int)
    requires effect.kind.OtherEffect?
    ensures !IsEffectActive(effect, localFrame, clipDuration)
    ensures GetEffectProgress(effect, localFrame, clipDuration) == 1.0
  {
  }

  /** With a positive duration, progress never decreases as the local frame advances. */
  lemma ProgressMonotone(effect: Effect, f1: int, f2: int, clipDuration: int)
    requires effect.durationInFrames > 0
    requires f1 <= f2
    ensures GetEffectProgress(effect, f1, clipDuration) <= GetEffectProgress(effect, f2, clipDuration)
  {
    var d := effect.durationInFrames;
    match effect.kind
    case FadeIn =>
      if f2 < d { QuotientMonotone(f1, f2, d); }
      else if f1 < d { QuotientBelowOne(if f1 < 0 then 0 else f1, d); QuotientMonotone(f1, if f1 < 0 then 0 else f1, d); }
    case SlideIn =>
      if f2 < d { QuotientMonotone(f1, f2, d); }
      else if f1 < d { QuotientBelowOne(if f1 < 0 then 0 else f1, d); QuotientMonotone(f1, if f1 < 0 then 0 else f1, d); }
    case FadeOut =>
      var s := clipDuration - d;
      if s <= f1 { QuotientMonotone(f1 - s, f2 - s, d); }
      else if s <= f2 { QuotientMonotone(0, f2 - s, d); }
    case OtherEffect(_) =>
  }

  // ---- The opacity fold of the clip components ----

  predicate AllProgressDefined(effects: seq<Effect>, localFrame: int, clipDuration: int)
  {
    forall e | e in effects :: ProgressDefined(e, localFrame, clipDuration)
  }

  function Min(a: real, b: real): real { if a <= b then a else b }

  /** What one effect does to the opacity: an active fade-in caps it at its progress, an active
      fade-out at one minus its progress; anything else leaves it alone (`None`). */
  function FadeBound(effect: Effect, localFrame: int, clipDuration: int): Option<real>
    requires ProgressDefined(effect, localFrame, clipDuration)
  {
    if !IsEffectActive(effect, localFrame, clipDuration) then None
    else if effect.kind == FadeIn then Some(GetEffectProgress(effect, localFrame, clipDuration))
    else if effect.kind == FadeOut then Some(1.0 - GetEffectProgress(effect, localFrame, clipDuration))
    else None
  }

  /** The opacity the components compute: start at 1, then take the minimum with each bound, in order. */
  function Opacity(effects: seq<Effect>, localFrame: int, clipDuration: int): real
    requires AllProgressDefined(effects, localFrame, clipDuration)
    decreases |effects|
  {
    if effects == [] then 1.0
    else
      var before := Opacity(effects[..|effects| - 1], localFrame, clipDuration);
      match FadeBound(effects[|effects| - 1], localFrame, clipDuration)
      case None => before
      case Some(b) => Min(before, b)
  }

  /** The folded opacity is the least of 1 and every active fade's bound. */
  lemma {:induction false} OpacityIsLeastBound(effects: seq<Effect>, localFrame: int, clipDuration: int)
    requires AllProgressDefined(effects, localFrame, clipDuration)
    ensures Opacity(effects, localFrame, clipDuration) <= 1.0
    ensures forall i :: 0 <= i < |effects| && FadeBound(effects[i], localFrame, clipDuration).Some? ==>
              Opacity(effects, localFrame, clipDuration) <= FadeBound(effects[i], localFrame, clipDuration).value
    ensures Opacity(effects, localFrame, clipDuration) == 1.0 ||
            exists i :: 0 <= i < |effects| &&
              FadeBound(effects[i], localFrame, clipDuration) == Some(Opacity(effects, localFrame, clipDuration))
    decreases |effects|
  {
    if effects != [] {
      var n := |effects| - 1;
      var front := effects[..n];
      OpacityIsLeastBound(front, localFrame, clipDuration);
      assert forall i :: 0 <= i < n ==> front[i] == effects[i];
    }
  }

  /** With no active fade the opacity is 1. */
  lemma NoActiveFadeIsOpaque(effects: seq<Effect>, localFrame: int, clipDuration: int)
    requires AllProgressDefined(effects, localFrame, clipDuration)
    requires forall i :: 0 <= i < |effects| ==>
               !(IsEffectActive(effects[i], localFrame, clipDuration) && (effects[i].kind == FadeIn || effects[i].kind == FadeOut))
    ensures Opacity(effects, localFrame, clipDuration) == 1.0
  {
    OpacityIsLeastBound(effects, localFrame, clipDuration);
  }

  /** The opacity does not depend on the order of the effects. */
  lemma OpacityOrderIndependent(a: seq<Effect>, b: seq<Effect>, localFrame: int, clipDuration: int)
    requires multiset(a) == multiset(b)
    requires AllProgressDefined(a, localFrame, clipDuration)
    ensures AllProgressDefined(b, localFrame, clipDuration)
    ensures Opacity(a, localFrame, clipDuration) == Opacity(b, localFrame, clipDuration)
  {
    assert forall e :: e in b ==> e in multiset(a);
    OpacityBelowPermutation(a, b, localFrame, clipDuration);
    OpacityBelowPermutation(b, a, localFrame, clipDuration);
  }

  lemma OpacityBelowPermutation(a: seq<Effect>, b: seq<Effect>, localFrame: int, clipDuration: int)
    requires multiset(a) == multiset(b)
    requires AllProgressDefined(a, localFrame, clipDuration)
    requires AllProgressDefined(b, localFrame, clipDuration)
    ensures Opacity(a, localFrame, clipDuration) <= Opacity(b, localFrame, clipDuration)
  {
    OpacityIsLeastBound(a, localFrame, clipDuration);
    OpacityIsLeastBound(b, localFrame, clipDuration);
    var ob := Opacity(b, localFrame, clipDuration);
    if ob != 1.0 {
      var j :| 0 <= j < |b| && FadeBound(b[j], localFrame, clipDuration) == Some(ob);
      assert b[j] in multiset(a);
      assert b[j] in a;
      var i :| 0 <= i < |a| && a[i] == b[j];
    }
  }

  /** Inside the clip and with positive effect durations, the opacity lies in [0, 1]. */
  lemma {:induction false} OpacityInUnitRange(effects: seq<Effect>, localFrame: int, clipDuration: int)
    requires 0 <= localFrame < clipDuration
    requires forall i :: 0 <= i < |effects| ==> effects[i].durationInFrames > 0
    ensures AllProgressDefined(effects, localFrame, clipDuration)
    ensures 0.0 <= Opacity(effects, localFrame, clipDuration) <= 1.0
    decreases |effects|
  {
    if effects != [] {
      var n := |effects| - 1;
      var e := effects[n];
      OpacityInUnitRange(effects[..n], localFrame, clipDuration);
      assert AllProgressDefined(effects, localFrame, clipDuration) by {
        assert forall i :: 0 <= i < n ==> effects[..n][i] == effects[i];
      }
      if e.kind == FadeIn {
        EntranceProgress(e, localFrame, clipDuration);
      } else if e.kind == FadeOut {
        ExitProgress(e, localFrame, clipDuration);
      }
    }
  }

  /** Slide-in effects never touch the opacity: dropping them all leaves it as it was. */
  lemma {:induction false} OpacityIgnoresSlides(effects: seq<Effect>, localFrame: int, clipDuration: int)
    requires AllProgressDefined(effects, localFrame, clipDuration)
    ensures AllProgressDefined(WithoutSlides(effects), localFrame, clipDuration)
    ensures Opacity(WithoutSlides(effects), localFrame, clipDuration) == Opacity(effects, localFrame, clipDuration)
    decreases |effects|
  {
    if effects != [] {
      var n := |effects| - 1;
      assert effects == effects[..n] + [effects[n]];
      assert AllProgressDefined(effects[..n], localFrame, clipDuration) by {
        assert forall i :: 0 <= i < n ==> effects[..n][i] == effects[i];
      }
      OpacityIgnoresSlides(effects[..n], localFrame, clipDuration);
      var rest := WithoutSlides(effects[..n]);
      var e := effects[n];
      if e.kind != SlideIn {
        assert WithoutSlides(effects) == rest + [e];
        assert (rest + [e])[..|rest|] == rest;
        assert (rest + [e])[|rest|] == e;
      } else {
        assert WithoutSlides(effects) == rest + [];
        assert rest + [] == rest;
        assert FadeBound(e, localFrame, clipDuration) == None;
      }
    }
  }

  /** The effects that are not slide-ins, in order. */
  function WithoutSlides(effects: seq<Effect>): (r: seq<Effect>)
    ensures forall i :: 0 <= i < |r| ==> r[i] in effects && r[i].kind != SlideIn
    decreases |effects|
  {
    if effects == [] then []
    else
      var n := |effects| - 1;
      WithoutSlides(effects[..n]) + (if effects[n].kind == SlideIn then [] else [effects[n]])
  }

  // ---- The slide-in fold of the text component ----

  /** `(1 - progress) * 100`: the slide distance still to travel, in pixels. */
  function SlideDistance(progress: real): real { (1.0 - progress) * 100.0 }

  /** The better-prompting side's per-direction displacement; no displacement for a missing direction. */
  function DirectionalOffset(direction: Option<Direction>, progress: real): Option<SlideOffset>
  {
    match direction
    case Some(FromBottom) => Some(SlideOffset(YAxis, SlideDistance(progress)))
    case Some(FromTop) => Some(SlideOffset(YAxis, -SlideDistance(progress)))
    case Some(FromLeft) => Some(SlideOffset(XAxis, -SlideDistance(progress)))
    case Some(FromRight) => Some(SlideOffset(XAxis, SlideDistance(progress)))
    case None => None
  }

  /** Displacement set by the better-prompting fold: every active slide-in replaces the transform
      with the anchor transform plus its own displacement, so the last active one decides. */
  function SlideOffsetAnyDirection(effects: seq<Effect>, localFrame: int, clipDuration: int): Option<SlideOffset>
    requires AllProgressDefined(effects, localFrame, clipDuration)
    decreases |effects|
  {
    if effects == [] then None
    else
      var n := |effects| - 1;
      var e := effects[n];
      if e.kind == SlideIn && IsEffectActive(e, localFrame, clipDuration)
      then DirectionalOffset(e.direction, GetEffectProgress(e, localFrame, clipDuration))
      else SlideOffsetAnyDirection(effects[..n], localFrame, clipDuration)
  }

  /** Displacement set by the HEAD-side fold: only active from-bottom slide-ins act, each moving the
      text down by the remaining distance; the last one decides. */
  function SlideOffsetFromBottom(effects: seq<Effect>, localFrame: int, clipDuration: int): Option<SlideOffset>
    requires AllProgressDefined(effects, localFrame, clipDuration)
    decreases |effects|
  {
    if effects == [] then None
    else
      var n := |effects| - 1;
      var e := effects[n];
      if e.kind == SlideIn && e.direction == Some(FromBottom) && IsEffectActive(e, localFrame, clipDuration)
      then Some(SlideOffset(YAxis, SlideDistance(GetEffectProgress(e, localFrame, clipDuration))))
      else SlideOffsetFromBottom(effects[..n], localFrame, clipDuration)
  }

  predicate ActiveSlide(effect: Effect, localFrame: int, clipDuration: int)
  {
    effect.kind == SlideIn && IsEffectActive(effect, localFrame, clipDuration)
  }

  predicate ActiveBottomSlide(effect: Effect, localFrame: int, clipDuration: int)
  {
    ActiveSlide(effect, localFrame, clipDuration) && effect.direction == Some(FromBottom)
  }

  /** Without an active slide-in the better-prompting fold leaves the anchor transform alone. */
  lemma {:induction false} NoActiveSlideNoOffset(effects: seq<Effect>, localFrame: int, clipDuration: int)
    requires AllProgressDefined(effects, localFrame, clipDuration)
    requires forall i :: 0 <= i < |effects| ==> !ActiveSlide(effects[i], localFrame, clipDuration)
    ensures SlideOffsetAnyDirection(effects, localFrame, clipDuration) == None
    decreases |effects|
  {
    if effects != [] {
      var n := |effects| - 1;
      assert forall i :: 0 <= i < n ==> effects[..n][i] == effects[i];
      NoActiveSlideNoOffset(effects[..n], localFrame, clipDuration);
    }
  }

  /** With several active slide-ins the displacement is that of the last one, not a sum: bottom
      pushes down (+Y), top pulls up (-Y), left pulls left (-X), right pushes right (+X), each by
      `(1 - progress) * 100` pixels; a slide-in without a direction leaves only the anchor transform. */
  lemma {:induction false} LastActiveSlideDecides(effects: seq<Effect>, k: nat, localFrame: int, clipDuration: int)
    requires AllProgressDefined(effects, localFrame, clipDuration)
    requires k < |effects| && ActiveSlide(effects[k], localFrame, clipDuration)
    requires forall j :: k < j < |effects| ==> !ActiveSlide(effects[j], localFrame, clipDuration)
    ensures var p := GetEffectProgress(effects[k], localFrame, clipDuration);
            SlideOffsetAnyDirection(effects, localFrame, clipDuration) ==
              match effects[k].direction
              case Some(FromBottom) => Some(SlideOffset(YAxis, (1.0 - p) * 100.0))
              case Some(FromTop) => Some(SlideOffset(YAxis, -(1.0 - p) * 100.0))
              case Some(FromLeft) => Some(SlideOffset(XAxis, -(1.0 - p) * 100.0))
              case Some(FromRight) => Some(SlideOffset(XAxis, (1.0 - p) * 100.0))
              case None => None
    decreases |effects|
  {
    var n := |effects| - 1;
    if k < n {
      assert forall i :: 0 <= i < n ==> effects[..n][i] == effects[i];
      LastActiveSlideDecides(effects[..n], k, localFrame, clipDuration);
    }
  }

  /** Without an active from-bottom slide-in the HEAD-side fold leaves the centred transform alone. */
  lemma {:induction false} NoBottomSlideNoOffset(effects: seq<Effect>, localFrame: int, clipDuration: int)
    requires AllProgressDefined(effects, localFrame, clipDuration)
    requires forall i :: 0 <= i < |effects| ==> !ActiveBottomSlide(effects[i], localFrame, clipDuration)
    ensures SlideOffsetFromBottom(effects, localFrame, clipDuration) == None
    decreases |effects|
  {
    if effects != [] {
      var n := |effects| - 1;
      assert forall i :: 0 <= i < n ==> effects[..n][i] == effects[i];
      NoBottomSlideNoOffset(effects[..n], localFrame, clipDuration);
    }
  }

  /** The HEAD-side displacement is that of the last active from-bottom slide-in, `(1 - progress) * 100`
      pixels down; slides from other edges are ignored. */
  lemma {:induction false} LastBottomSlideDecides(effects: seq<Effect>, k: nat, localFrame: int, clipDuration: int)
    requires AllProgressDefined(effects, localFrame, clipDuration)
    requires k < |effects| && ActiveBottomSlide(effects[k], localFrame, clipDuration)
    requires forall j :: k < j < |effects| ==> !ActiveBottomSlide(effects[j], localFrame, clipDuration)
    ensures SlideOffsetFromBottom(effects, localFrame, clipDuration) ==
              Some(SlideOffset(YAxis, (1.0 - GetEffectProgress(effects[k], localFrame, clipDuration)) * 100.0))
    decreases |effects|
  {
    var n := |effects| - 1;
    if k < n {
      assert forall i :: 0 <= i < n ==> effects[..n][i] == effects[i];
      LastBottomSlideDecides(effects[..n], k, localFrame, clipDuration);
    }
  }

  /** A slide-in starts a full 100 pixels away at its first frame and has no distance left once
      its progress reaches 1. */
  lemma SlideDistanceEnds(effect: Effect, clipDuration: int)
    requires effect.kind == SlideIn && effect.durationInFrames > 0
    ensures SlideDistance(GetEffectProgress(effect, 0, clipDuration)) == 100.0
    ensures SlideDistance(GetEffectProgress(effect, effect.durationInFrames, clipDuration)) == 0.0
  {
    EntranceProgress(effect, 0, clipDuration);
  }
}
