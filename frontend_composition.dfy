/** The preview composition (frontend/src/remotion/VideoComposition.tsx). Both sides of its merge
    conflict are modelled: the HEAD text component slides only from the bottom off a centred
    anchor, the better-prompting one slides in four directions off the clip's computed anchor. */
module FrontendComposition {
  import opened Wrappers
  import opened TimelineTypes
  import Effects
  import Positioning

  /** `VideoClipComponent`'s opacity at the frame it observes. */
  method VideoClipOpacity(clip: RemotionClip, frame: int) returns (opacity: real)
    requires Effects.AllProgressDefined(clip.effects, frame - clip.startInFrames, clip.durationInFrames)
    ensures opacity == Effects.Opacity(clip.effects, frame - clip.startInFrames, clip.durationInFrames)
  {
    var localFrame := Effects.GetClipLocalFrame(clip, frame);
    var effects := clip.effects;
    opacity := 1.0;
    var i := 0;
    while i < |effects|
      invariant 0 <= i <= |effects|
      invariant Effects.AllProgressDefined(effects[..i], localFrame, clip.durationInFrames)
      invariant opacity == Effects.Opacity(effects[..i], localFrame, clip.durationInFrames)
    {
      var effect := effects[i];
      assert effects[..i + 1][..i] == effects[..i];
      assert effects[..i + 1][i] == effect;
      assert effect in effects;
      if Effects.IsEffectActive(effect, localFrame, clip.durationInFrames) {
        var progress := Effects.GetEffectProgress(effect, localFrame, clip.durationInFrames);
        if effect.kind == FadeIn {
          opacity := Effects.Min(opacity, progress);
        } else if effect.kind == FadeOut {
          opacity := Effects.Min(opacity, 1.0 - progress);
        }
      }
      i := i + 1;
    }
    assert effects[..|effects|] == effects;
  }

  /** HEAD `TextClipComponent`: centred anchor; an active from-bottom slide-in sets the transform to
      the anchor moved down by `(1 - progress) * 100` pixels. */
  method TextClipComponentHead(clip: RemotionClip, frame: int) returns (opacity: real, transform: TextTransform)
    requires Effects.AllProgressDefined(clip.effects, frame - clip.startInFrames, clip.durationInFrames)
    ensures opacity == Effects.Opacity(clip.effects, frame - clip.startInFrames, clip.durationInFrames)
    ensures transform == TextTransform(Translate(-50, -50),
                           Effects.SlideOffsetFromBottom(clip.effects, frame - clip.startInFrames, clip.durationInFrames))
  {
    var localFrame := Effects.GetClipLocalFrame(clip, frame);
    var effects := clip.effects;
    opacity := 1.0;
    transform := TextTransform(Translate(-50, -50), None);
    var i := 0;
    while i < |effects|
      invariant 0 <= i <= |effects|
      invariant Effects.AllProgressDefined(effects[..i], localFrame, clip.durationInFrames)
      invariant opacity == Effects.Opacity(effects[..i], localFrame, clip.durationInFrames)
      invariant transform == TextTransform(Translate(-50, -50),
                               Effects.SlideOffsetFromBottom(effects[..i], localFrame, clip.durationInFrames))
    {
      var effect := effects[i];
      assert effects[..i + 1][..i] == effects[..i];
      assert effects[..i + 1][i] == effect;
      assert effect in effects;
      if Effects.IsEffectActive(effect, localFrame, clip.durationInFrames) {
        var progress := Effects.GetEffectProgress(effect, localFrame, clip.durationInFrames);
        if effect.kind == FadeIn {
          opacity := Effects.Min(opacity, progress);
        } else if effect.kind == FadeOut {
          opacity := Effects.Min(opacity, 1.0 - progress);
        } else if effect.kind == SlideIn && effect.direction == Some(FromBottom) {
          var translateY := (1.0 - progress) * 100.0;
          transform := TextTransform(Translate(-50, -50), Some(SlideOffset(YAxis, translateY)));
        }
      }
      i := i + 1;
    }
    assert effects[..|effects|] == effects;
  }

  /** better-prompting `TextClipComponent`: the transform starts as the anchor translate
      `calculatePosition` gives for the clip's position and layout; each active slide-in resets it to
      that anchor plus its own directional displacement (none for a missing direction). */
  method TextClipComponent(clip: RemotionClip, frame: int) returns (opacity: real, transform: TextTransform)
    requires Effects.AllProgressDefined(clip.effects, frame - clip.startInFrames, clip.durationInFrames)
    ensures opacity == Effects.Opacity(clip.effects, frame - clip.startInFrames, clip.durationInFrames)
    ensures transform == TextTransform(Positioning.CalculatePosition(clip.visual.position, clip.layout).transform,
                           Effects.SlideOffsetAnyDirection(clip.effects, frame - clip.startInFrames, clip.durationInFrames))
  {
    var localFrame := Effects.GetClipLocalFrame(clip, frame);
    var positionData := Positioning.CalculatePosition(clip.visual.position, clip.layout);
    var effects := clip.effects;
    opacity := 1.0;
    transform := TextTransform(positionData.transform, None);
    var i := 0;
    while i < |effects|
      invariant 0 <= i <= |effects|
      invariant Effects.AllProgressDefined(effects[..i], localFrame, clip.durationInFrames)
      invariant opacity == Effects.Opacity(effects[..i], localFrame, clip.durationInFrames)
      invariant transform == TextTransform(positionData.transform,
                               Effects.SlideOffsetAnyDirection(effects[..i], localFrame, clip.durationInFrames))
    {
      var effect := effects[i];
      assert effects[..i + 1][..i] == effects[..i];
      assert effects[..i + 1][i] == effect;
      assert effect in effects;
      if Effects.IsEffectActive(effect, localFrame, clip.durationInFrames) {
        var progress := Effects.GetEffectProgress(effect, localFrame, clip.durationInFrames);
        if effect.kind == FadeIn {
          opacity := Effects.Min(opacity, progress);
        } else if effect.kind == FadeOut {
          opacity := Effects.Min(opacity, 1.0 - progress);
        } else if effect.kind == SlideIn {
          var slideDistance := 100.0;
          var slide: Option<SlideOffset> := None;
          match effect.direction {
            case Some(FromBottom) => slide := Some(SlideOffset(YAxis, (1.0 - progress) * slideDistance));
            case Some(FromTop) => slide := Some(SlideOffset(YAxis, -(1.0 - progress) * slideDistance));
            case Some(FromLeft) => slide := Some(SlideOffset(XAxis, -(1.0 - progress) * slideDistance));
            case Some(FromRight) => slide := Some(SlideOffset(XAxis, (1.0 - progress) * slideDistance));
            case None =>
          }
          transform := TextTransform(positionData.transform, slide);
        }
      }
      i := i + 1;
    }
    assert effects[..|effects|] == effects;
  }

  /** The two text components differ only in the anchor and in the directions they honour: for a
      clip without position whose active slide-ins all come from the bottom, they agree. */
  lemma {:induction false} VariantsAgreeOnBottomSlides(effects: seq<Effect>, localFrame: int, clipDuration: int)
    requires Effects.AllProgressDefined(effects, localFrame, clipDuration)
    requires forall i :: 0 <= i < |effects| && Effects.ActiveSlide(effects[i], localFrame, clipDuration) ==>
               effects[i].direction == Some(FromBottom)
    ensures Effects.SlideOffsetAnyDirection(effects, localFrame, clipDuration) ==
            Effects.SlideOffsetFromBottom(effects, localFrame, clipDuration)
    decreases |effects|
  {
    if effects != [] {
      var n := |effects| - 1;
      assert Effects.AllProgressDefined(effects[..n], localFrame, clipDuration) by {
        assert forall e :: e in effects[..n] ==> e in effects;
      }
      assert forall i :: 0 <= i < n ==> effects[..n][i] == effects[i];
      VariantsAgreeOnBottomSlides(effects[..n], localFrame, clipDuration);
    }
  }

  /** Without a position the better-prompting anchor is the HEAD side's centred one. */
  lemma DefaultAnchorMatchesHead(layout: Option<Layout>)
    ensures Positioning.CalculatePosition(None, layout).transform == Translate(-50, -50)
  {
  }
}
