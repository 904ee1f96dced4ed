/** The server-side render composition (backend/remotion/VideoComposition.js): its own copy of the
    effect evaluator and the per-frame folds of its two clip components. */
module BackendComposition {
  import opened Wrappers
  import opened TimelineTypes
  import Effects

  /** `getClipLocalFrame` (backend copy). */
  function GetClipLocalFrame(clip: RemotionClip, globalFrame: int): int
  {
    globalFrame - clip.startInFrames
  }

  /** `isEffectActive` (backend copy). */
  predicate IsEffectActive(effect: Effect, localFrame: int, clipDuration: int)
  {
    match effect.kind
    case FadeIn => localFrame < effect.durationInFrames
    case FadeOut => localFrame >= clipDuration - effect.durationInFrames
    case SlideIn => localFrame < effect.durationInFrames
    case OtherEffect(_) => false
  }

  /** `getEffectProgress` (backend copy); it divides only for an active effect. */
  function GetEffectProgress(effect: Effect, localFrame: int, clipDuration: int): real
    requires IsEffectActive(effect, localFrame, clipDuration) ==> effect.durationInFrames != 0
  {
    var d := effect.durationInFrames;
    match effect.kind
    case FadeIn => if localFrame >= d then 1.0 else localFrame as real / d as real
    case FadeOut =>
      if localFrame < clipDuration - d then 0.0 else (localFrame - (clipDuration - d)) as real / d as real
    case SlideIn => if localFrame >= d then 1.0 else localFrame as real / d as real
    case OtherEffect(_) => 1.0
  }

  /** The backend evaluator agrees with the frontend one on every input, case by case. */
  lemma EvaluatorAgreesWithFrontend(clip: RemotionClip, frame: int, effect: Effect, localFrame: int, clipDuration: int)
    ensures GetClipLocalFrame(clip, frame) == Effects.GetClipLocalFrame(clip, frame)
    ensures IsEffectActive(effect, localFrame, clipDuration) <==> Effects.IsEffectActive(effect, localFrame, clipDuration)
    ensures Effects.ProgressDefined(effect, localFrame, clipDuration) ==>
              GetEffectProgress(effect, localFrame, clipDuration) == Effects.GetEffectProgress(effect, localFrame, clipDuration)
  {
  }

  /** A video frame: the `<Video>` source window and the wrapper's opacity. */
  datatype VideoFrame = VideoFrame(src: Option<string>, startFrom: int, endAt: Option<int>, opacity: real)

  /** `VideoClipComponent` at the frame it observes: the opacity fold over the clip's effects. */
  method VideoClipComponent(clip: RemotionClip, frame: int) returns (r: VideoFrame)
    requires Effects.AllProgressDefined(clip.effects, frame - clip.startInFrames, clip.durationInFrames)
    ensures r.opacity == Effects.Opacity(clip.effects, frame - clip.startInFrames, clip.durationInFrames)
    ensures r.src == clip.assetUrl && r.endAt == clip.sourceOut
    ensures r.startFrom == (if clip.sourceIn.Some? then clip.sourceIn.value else 0)
  {
    var localFrame := GetClipLocalFrame(clip, frame);
    var effects := clip.effects;
    var opacity := 1.0;
    var i := 0;
    while i < |effects|
      invariant 0 <= i <= |effects|
      invariant Effects.AllProgressDefined(effects[..i], localFrame, clip.durationInFrames)
      invariant opacity == Effects.Opacity(effects[..i], localFrame, clip.durationInFrames)
    {
      var effect := effects[i];
      assert effects[..i + 1][..i] == effects[..i];
      assert effects[..i + 1][i] == effect;
      assert effect in effects;
      if IsEffectActive(effect, localFrame, clip.durationInFrames) {
        var progress := GetEffectProgress(effect, localFrame, clip.durationInFrames);
        if effect.kind == FadeIn {
          opacity := Effects.Min(opacity, progress);
        } else if effect.kind == FadeOut {
          opacity := Effects.Min(opacity, 1.0 - progress);
        }
      }
      i := i + 1;
    }
    assert effects[..|effects|] == effects;
    r := VideoFrame(clip.assetUrl, clip.sourceIn.GetOr(0), clip.sourceOut, opacity);
  }

  /** `TextClipComponent` at the frame it observes: the text stays centred (`translate(-50%, -50%)`)
      and fades like a video clip; an active from-bottom slide-in adds a downward displacement. */
  method TextClipComponent(clip: RemotionClip, frame: int) returns (opacity: real, transform: TextTransform)
    requires Effects.AllProgressDefined(clip.effects, frame - clip.startInFrames, clip.durationInFrames)
    ensures opacity == Effects.Opacity(clip.effects, frame - clip.startInFrames, clip.durationInFrames)
    ensures transform == TextTransform(Translate(-50, -50),
                           Effects.SlideOffsetFromBottom(clip.effects, frame - clip.startInFrames, clip.durationInFrames))
  {
    var localFrame := GetClipLocalFrame(clip, frame);
    var effects := clip.effects;
    opacity := 1.0;
    transform := TextTransform(Translate(-50, -50), None);
    var i := 0;
    while i < |effects|
      invariant 0 <= i <= |effects|
      invariant Effects.AllProgressDefined(effects[..i], localFrame, clip.durationInFrames)
      invariant opacity == Effects.Opacity(effects[..i], localFrame, clip.durationInFrames)
      invariant transform == TextTransform(Translate(-50, -50),
                               Effects.SlideOffsetFromBottom(effects[..i], localFrame, clip.durationInFrames))
    {
      var effect := effects[i];
      assert effects[..i + 1][..i] == effects[..i];
      assert effects[..i + 1][i] == effect;
      assert effect in effects;
      if IsEffectActive(effect, localFrame, clip.durationInFrames) {
        var progress := GetEffectProgress(effect, localFrame, clip.durationInFrames);
        if effect.kind == FadeIn {
          opacity := Effects.Min(opacity, progress);
        } else if effect.kind == FadeOut {
          opacity := Effects.Min(opacity, 1.0 - progress);
        } else if effect.kind == SlideIn && effect.direction == Some(FromBottom) {
          var translateY := (1.0 - progress) * 100.0;
          transform := TextTransform(Translate(-50, -50), Some(SlideOffset(YAxis, translateY)));
        }
      }
      i := i + 1;
    }
    assert effects[..|effects|] == effects;
  }
}
