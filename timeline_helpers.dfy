/** The frame-based timeline helpers of the assistant backend (backend/prompts/timelineHelpers.js):
    conversions, defaults, lookups, track-id generation and fade insertion. */
module TimelineHelpers {
  import opened Wrappers
  import opened TimelineTypes
  import opened Strings

  // ---- secondsToFrames / framesToSeconds ----

  /** `Math.round(seconds * fps)`: the nearest integer, halves rounded up. */
  function SecondsToFrames(seconds: real, fps: real): (frames: int)
    ensures frames as real - 0.5 <= seconds * fps < frames as real + 0.5
  {
    (seconds * fps + 0.5).Floor
  }

  /** `frames / fps`. */
  function FramesToSeconds(frames: int, fps: real): (seconds: real)
    requires fps != 0.0
    ensures seconds * fps == frames as real
  {
    frames as real / fps
  }

  /** A whole number of frames survives the trip through seconds. */
  lemma FramesRoundTrip(frames: int, fps: real)
    requires fps > 0.0
    ensures SecondsToFrames(FramesToSeconds(frames, fps), fps) == frames
  {
  }

  /** Rounding is monotone: later times never map to earlier frames. */
  lemma SecondsToFramesMonotone(s1: real, s2: real, fps: real)
    requires s1 <= s2 && fps >= 0.0
    ensures SecondsToFrames(s1, fps) <= SecondsToFrames(s2, fps)
  {
    assert s1 * fps <= s2 * fps;
  }

  // ---- Defaults ----

  const DefaultProject := ProjectSettings(1920, 1080, 30)

  const DefaultTextStyle := TextStyle("Arial, sans-serif", 64.0, "bold", "#FFFFFF", None, None, None)

  /** `COMMON_DURATIONS.medium`, 3 seconds at 30 fps, the default text clip length. */
  const MediumDuration := 90

  /** The default video clip length, 10 seconds at 30 fps. */
  const DefaultVideoDuration := 300

  /** The default fade length, 1 second at 30 fps. */
  const DefaultFadeDuration := 30

  /** A partial style given to `createTextClip`; `None` marks a key the caller left out. */
  datatype StyleOverride = StyleOverride(
    fontFamily: Option<string>,
    fontSize: Option<real>,
    fontWeight: Option<string>,
    color: Option<string>,
    textShadow: Option<string>,
    letterSpacing: Option<real>,
    textTransform: Option<string>)

  const NoOverride := StyleOverride(None, None, None, None, None, None, None)

  /** `{ ...DEFAULT_TEXT_STYLE, ...style }`. */
  function MergeStyle(style: StyleOverride): TextStyle
  {
    TextStyle(style.fontFamily.GetOr(DefaultTextStyle.fontFamily),
              style.fontSize.GetOr(DefaultTextStyle.fontSize),
              style.fontWeight.GetOr(DefaultTextStyle.fontWeight),
              style.color.GetOr(DefaultTextStyle.color),
              style.textShadow, style.letterSpacing, style.textTransform)
  }

  /** Every key the override sets wins; every other key keeps the default's value (or stays unset). */
  lemma MergeStyleOverrideWins(style: StyleOverride)
    ensures style.fontFamily.Some? ==> MergeStyle(style).fontFamily == style.fontFamily.value
    ensures style.fontFamily.None? ==> MergeStyle(style).fontFamily == "Arial, sans-serif"
    ensures style.fontSize.Some? ==> MergeStyle(style).fontSize == style.fontSize.value
    ensures style.fontSize.None? ==> MergeStyle(style).fontSize == 64.0
    ensures style.fontWeight.Some? ==> MergeStyle(style).fontWeight == style.fontWeight.value
    ensures style.fontWeight.None? ==> MergeStyle(style).fontWeight == "bold"
    ensures style.color.Some? ==> MergeStyle(style).color == style.color.value
    ensures style.color.None? ==> MergeStyle(style).color == "#FFFFFF"
    ensures MergeStyle(style).textShadow == style.textShadow
    ensures MergeStyle(NoOverride) == DefaultTextStyle
  {
  }

  /** `createTextClip`; `id` stands for `generateClipId('text')`. */
  function CreateTextClip(id: string, text: string, startInFrames: int, durationInFrames: int,
                          style: StyleOverride): (c: RemotionClip)
    ensures c.id == id && c.text == Some(text)
    ensures c.startInFrames == startInFrames && c.durationInFrames == durationInFrames
    ensures c.style == Some(MergeStyle(style)) && c.effects == []
    ensures c.assetUrl.None?
  {
    RemotionClip(id, startInFrames, durationInFrames, None, None, None, Some(text), Some(MergeStyle(style)),
                 NoVisual, None, [])
  }

  /** `createVideoClip`; `id` stands for `generateClipId('video')`. */
  function CreateVideoClip(id: string, assetUrl: string, startInFrames: int, durationInFrames: int): (c: RemotionClip)
    ensures c.id == id && c.assetUrl == Some(assetUrl)
    ensures c.startInFrames == startInFrames && c.durationInFrames == durationInFrames
    ensures c.effects == [] && c.text.None? && c.style.None?
  {
    RemotionClip(id, startInFrames, durationInFrames, Some(assetUrl), None, None, None, None, NoVisual, None, [])
  }

  // ---- findClipById / findTrackById ----

  predicate TrackHolds(track: RemotionTrack, clipId: string)
  {
    exists j :: 0 <= j < |track.clips| && track.clips[j].id == clipId
  }

  /** The first clip of the track with that id. */
  function FindClipInTrack(clips: seq<RemotionClip>, clipId: string): (r: Option<RemotionClip>)
    ensures r.None? <==> forall j :: 0 <= j < |clips| ==> clips[j].id != clipId
    ensures r.Some? ==> exists j :: 0 <= j < |clips| && clips[j] == r.value && r.value.id == clipId &&
                          forall j' :: 0 <= j' < j ==> clips[j'].id != clipId
    decreases |clips|
  {
    if clips == [] then None
    else if clips[0].id == clipId then Some(clips[0])
    else
      var r := FindClipInTrack(clips[1..], clipId);
      assert forall j :: 1 <= j < |clips| ==> clips[j] == clips[1..][j - 1];
      r
  }

  /** `findClipById`: the first track (in order) holding the id, with its first clip of that id. */
  function FindClipById(tracks: seq<RemotionTrack>, clipId: string): (r: Option<(RemotionTrack, RemotionClip)>)
    ensures r.None? <==> forall i :: 0 <= i < |tracks| ==> !TrackHolds(tracks[i], clipId)
    ensures r.Some? ==> exists i :: 0 <= i < |tracks| && tracks[i] == r.value.0 &&
                          (forall i' :: 0 <= i' < i ==> !TrackHolds(tracks[i'], clipId)) &&
                          FindClipInTrack(tracks[i].clips, clipId) == Some(r.value.1)
    decreases |tracks|
  {
    if tracks == [] then None
    else match FindClipInTrack(tracks[0].clips, clipId)
      case Some(c) => Some((tracks[0], c))
      case None =>
        var r := FindClipById(tracks[1..], clipId);
        assert forall i :: 1 <= i < |tracks| ==> tracks[i] == tracks[1..][i - 1];
        r
  }

  /** `findTrackById`: the first track with the id. */
  function FindTrackById(tracks: seq<RemotionTrack>, trackId: string): (r: Option<RemotionTrack>)
    ensures r.None? <==> forall i :: 0 <= i < |tracks| ==> tracks[i].id != trackId
    ensures r.Some? ==> exists i :: 0 <= i < |tracks| && tracks[i] == r.value && r.value.id == trackId &&
                          forall i' :: 0 <= i' < i ==> tracks[i'].id != trackId
    decreases |tracks|
  {
    if tracks == [] then None
    else if tracks[0].id == trackId then Some(tracks[0])
    else
      var r := FindTrackById(tracks[1..], trackId);
      assert forall i :: 1 <= i < |tracks| ==> tracks[i] == tracks[1..][i - 1];
      r
  }

  // ---- getNextTrackId ----

  const TrackPrefix := "track-"

  /** `id.match(/track-(\d+)/)` then `parseInt(match[1])`: the number after the leftmost `track-`
      that is followed by a digit, or `None` when the id has no such occurrence. */
  function TrackNumber(id: string): Option<nat>
    decreases |id|
  {
    if |id| <= |TrackPrefix| then None
    else if id[..|TrackPrefix|] == TrackPrefix && IsDigit(id[|TrackPrefix|])
    then Some(ParseDigits(DigitRun(id[|TrackPrefix|..])))
    else TrackNumber(id[1..])
  }

  /** The numbers of the ids that match, in track order. */
  function TrackNumbers(tracks: seq<RemotionTrack>): seq<nat>
    decreases |tracks|
  {
    if tracks == [] then []
    else
      (match TrackNumber(tracks[0].id) case Some(n) => [n] case None => []) + TrackNumbers(tracks[1..])
  }

  /** The collected numbers are exactly the numbers found in track ids; none when no id has one. */
  lemma {:induction false} TrackNumbersMeaning(tracks: seq<RemotionTrack>)
    ensures forall k :: 0 <= k < |TrackNumbers(tracks)| ==>
              exists i :: 0 <= i < |tracks| && TrackNumber(tracks[i].id) == Some(TrackNumbers(tracks)[k])
    ensures forall i :: 0 <= i < |tracks| && TrackNumber(tracks[i].id).Some? ==>
              TrackNumber(tracks[i].id).value in TrackNumbers(tracks)
    ensures (forall i :: 0 <= i < |tracks| ==> TrackNumber(tracks[i].id).None?) ==> TrackNumbers(tracks) == []
    decreases |tracks|
  {
    if tracks != [] {
      var rest := tracks[1..];
      TrackNumbersMeaning(rest);
      var head: seq<nat> := match TrackNumber(tracks[0].id) case Some(n) => [n] case None => [];
      var r := TrackNumbers(tracks);
      assert r == head + TrackNumbers(rest);
      forall k | 0 <= k < |r|
        ensures exists i :: 0 <= i < |tracks| && TrackNumber(tracks[i].id) == Some(r[k])
      {
        if k < |head| {
          assert r[k] == head[k];
          assert TrackNumber(tracks[0].id) == Some(r[k]);
        } else {
          assert r[k] == TrackNumbers(rest)[k - |head|];
          var i :| 0 <= i < |rest| && TrackNumber(rest[i].id) == Some(TrackNumbers(rest)[k - |head|]);
          assert tracks[i + 1] == rest[i];
          assert TrackNumber(tracks[i + 1].id) == Some(r[k]);
        }
      }
      forall i | 0 <= i < |tracks| && TrackNumber(tracks[i].id).Some?
        ensures TrackNumber(tracks[i].id).value in r
      {
        if i > 0 {
          assert tracks[i] == rest[i - 1];
        }
      }
      if forall i :: 0 <= i < |tracks| ==> TrackNumber(tracks[i].id).None? {
        assert head == [];
        forall i | 0 <= i < |rest| ensures TrackNumber(rest[i].id).None? {
          assert rest[i] == tracks[i + 1];
        }
      }
    } else {
      assert TrackNumbers(tracks) == [];
    }
  }

  /** The first element after sorting in descending order: the largest. */
  function MaxOf(s: seq<nat>): (m: nat)
    requires s != []
    ensures m in s && forall k :: 0 <= k < |s| ==> s[k] <= m
    decreases |s|
  {
    if |s| == 1 then s[0]
    else
      var m := MaxOf(s[1..]);
      assert forall k :: 1 <= k < |s| ==> s[k] == s[1..][k - 1];
      if s[0] >= m then s[0] else m
  }

  /** `getNextTrackId`: one past the largest track number in use, or 1 when none is. */
  function NextTrackNumber(tracks: seq<RemotionTrack>): nat
  {
    var numbers := TrackNumbers(tracks);
    if |numbers| > 0 then MaxOf(numbers) + 1 else 1
  }

  function GetNextTrackId(tracks: seq<RemotionTrack>): string
  {
    TrackPrefix + NatToString(NextTrackNumber(tracks))
  }

  /** The id `track-N` reads back as number N. */
  lemma TrackIdNumber(n: nat)
    ensures TrackNumber(TrackPrefix + NatToString(n)) == Some(n)
  {
    var digits := NatToString(n);
    var id := TrackPrefix + digits;
    NatToStringRoundTrip(n);
    assert id[..|TrackPrefix|] == TrackPrefix;
    assert id[|TrackPrefix|..] == digits;
    DigitRunOfDigits(digits, []);
    assert digits + [] == digits;
  }

  /** The generated id is the next number after every numbered id in use, and it differs from every
      existing track id. */
  lemma NextTrackIdIsFresh(tracks: seq<RemotionTrack>)
    ensures forall i :: 0 <= i < |tracks| && TrackNumber(tracks[i].id).Some? ==>
              TrackNumber(tracks[i].id).value < NextTrackNumber(tracks)
    ensures forall i :: 0 <= i < |tracks| ==> tracks[i].id != GetNextTrackId(tracks)
  {
    var numbers := TrackNumbers(tracks);
    TrackNumbersMeaning(tracks);
    forall i | 0 <= i < |tracks| && TrackNumber(tracks[i].id).Some?
      ensures TrackNumber(tracks[i].id).value < NextTrackNumber(tracks)
    {
      var k :| 0 <= k < |numbers| && numbers[k] == TrackNumber(tracks[i].id).value;
    }
    TrackIdNumber(NextTrackNumber(tracks));
  }

  /** With no numbered track, the first id is `track-1`. */
  lemma NextTrackIdStartsAtOne(tracks: seq<RemotionTrack>)
    requires forall i :: 0 <= i < |tracks| ==> TrackNumber(tracks[i].id).None?
    ensures GetNextTrackId(tracks) == "track-1"
  {
    TrackNumbersMeaning(tracks);
  }

  // ---- createTrack ----

  /** `createTrack(type, trackId)`: an empty track; without an id, `track-` and the clock reading `now`. */
  function CreateTrack(kind: string, trackId: string, now: nat): (t: RemotionTrack)
    ensures t.kind == kind && t.clips == []
    ensures t.id == if trackId != "" then trackId else TrackPrefix + NatToString(now)
  {
    RemotionTrack(if trackId != "" then trackId else TrackPrefix + NatToString(now), kind, [])
  }

  // ---- addFadeIn / addFadeOut ----

  predicate HasEffect(clip: RemotionClip, kind: EffectKind)
  {
    exists i :: 0 <= i < |clip.effects| && clip.effects[i].kind == kind
  }

  /** Appends an effect of `kind` unless the clip already has one. */
  function AddEffectOnce(clip: RemotionClip, kind: EffectKind, durationInFrames: int): RemotionClip
  {
    if HasEffect(clip, kind) then clip
    else clip.(effects := clip.effects + [Effect(kind, durationInFrames, None)])
  }

  /** `addFadeIn`. */
  function AddFadeIn(clip: RemotionClip, durationInFrames: int): RemotionClip
  {
    AddEffectOnce(clip, FadeIn, durationInFrames)
  }

  /** `addFadeOut`. */
  function AddFadeOut(clip: RemotionClip, durationInFrames: int): RemotionClip
  {
    AddEffectOnce(clip, FadeOut, durationInFrames)
  }

  /** After insertion the clip has an effect of that kind; its existing effects are kept in order as a
      prefix; at most one effect is added, and only when none of that kind was there; nothing else
      about the clip changes. */
  lemma AddEffectOnceMeaning(clip: RemotionClip, kind: EffectKind, durationInFrames: int)
    ensures var r := AddEffectOnce(clip, kind, durationInFrames);
      HasEffect(r, kind) &&
      clip.effects <= r.effects &&
      r == clip.(effects := r.effects) &&
      (HasEffect(clip, kind) ==> r == clip) &&
      (!HasEffect(clip, kind) ==> r.effects == clip.effects + [Effect(kind, durationInFrames, None)])
  {
    var r := AddEffectOnce(clip, kind, durationInFrames);
    if !HasEffect(clip, kind) {
      assert r.effects[|clip.effects|].kind == kind;
    }
  }

  /** Inserting twice is inserting once, whatever the second duration. */
  lemma AddEffectOnceIdempotent(clip: RemotionClip, kind: EffectKind, d1: int, d2: int)
    ensures AddEffectOnce(AddEffectOnce(clip, kind, d1), kind, d2) == AddEffectOnce(clip, kind, d1)
  {
    AddEffectOnceMeaning(clip, kind, d1);
  }

  lemma AddFadeInIdempotent(clip: RemotionClip, d1: int, d2: int)
    ensures AddFadeIn(AddFadeIn(clip, d1), d2) == AddFadeIn(clip, d1)
    ensures HasEffect(AddFadeIn(clip, d1), FadeIn) && clip.effects <= AddFadeIn(clip, d1).effects
  {
    AddEffectOnceIdempotent(clip, FadeIn, d1, d2);
    AddEffectOnceMeaning(clip, FadeIn, d1);
  }

  lemma AddFadeOutIdempotent(clip: RemotionClip, d1: int, d2: int)
    ensures AddFadeOut(AddFadeOut(clip, d1), d2) == AddFadeOut(clip, d1)
    ensures HasEffect(AddFadeOut(clip, d1), FadeOut) && clip.effects <= AddFadeOut(clip, d1).effects
  {
    AddEffectOnceIdempotent(clip, FadeOut, d1, d2);
    AddEffectOnceMeaning(clip, FadeOut, d1);
  }

  /** Fades of the two kinds do not block each other: on a clip with neither, inserting both adds both. */
  lemma BothFadesAdded(clip: RemotionClip, din: int, dout: int)
    requires !HasEffect(clip, FadeIn) && !HasEffect(clip, FadeOut)
    ensures HasEffect(AddFadeOut(AddFadeIn(clip, din), dout), FadeIn)
    ensures HasEffect(AddFadeOut(AddFadeIn(clip, din), dout), FadeOut)
    ensures |AddFadeOut(AddFadeIn(clip, din), dout).effects| == |clip.effects| + 2
  {
    AddEffectOnceMeaning(clip, FadeIn, din);
    var c1 := AddFadeIn(clip, din);
    assert !HasEffect(c1, FadeOut) by {
      assert forall i :: 0 <= i < |c1.effects| ==> c1.effects[i].kind != FadeOut by {
        assert forall i :: 0 <= i < |clip.effects| ==> c1.effects[i] == clip.effects[i];
      }
    }
    AddEffectOnceMeaning(c1, FadeOut, dout);
    var c2 := AddFadeOut(c1, dout);
    assert c2.effects[|clip.effects|].kind == FadeIn;
  }
}
