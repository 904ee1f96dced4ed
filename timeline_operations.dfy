/** `TIMELINE_OPERATIONS` (backend/prompts/timelineHelpers.js): text edits applied to a copy of a
    frame-based timeline. The copy is a value here, so the caller's timeline is never changed. */
module TimelineOperations {
  import opened Wrappers
  import opened TimelineTypes
  import opened Strings
  import TimelineHelpers

  // ---- changeText ----

  /** A clip whose text contains `oldText`, ignoring case, is a match. */
  predicate TextMatches(clip: RemotionClip, oldText: string)
  {
    clip.text.Some? && clip.text.value != "" && Contains(ToLower(clip.text.value), ToLower(oldText))
  }

  function ReplaceText(clip: RemotionClip, oldText: string, newText: string): RemotionClip
  {
    if TextMatches(clip, oldText) then clip.(text := Some(newText)) else clip
  }

  function ChangeTextInTrack(track: RemotionTrack, oldText: string, newText: string): RemotionTrack
  {
    if track.kind == "text"
    then track.(clips := seq(|track.clips|, j requires 0 <= j < |track.clips| => ReplaceText(track.clips[j], oldText, newText)))
    else track
  }

  /** The timeline `changeText` returns. */
  function ChangedText(timeline: VideoTimeline, oldText: string, newText: string): VideoTimeline
  {
    timeline.(timeline := seq(|timeline.timeline|, i requires 0 <= i < |timeline.timeline| =>
                                ChangeTextInTrack(timeline.timeline[i], oldText, newText)))
  }

  /** `changeText`: the copy's text tracks have every matching clip's text replaced. */
  method ChangeText(timeline: VideoTimeline, oldText: string, newText: string) returns (modified: VideoTimeline)
    ensures modified == ChangedText(timeline, oldText, newText)
  {
    var tracks := timeline.timeline;
    var i := 0;
    while i < |tracks|
      invariant 0 <= i <= |tracks| && |tracks| == |timeline.timeline|
      invariant forall k :: 0 <= k < i ==> tracks[k] == ChangeTextInTrack(timeline.timeline[k], oldText, newText)
      invariant forall k :: i <= k < |tracks| ==> tracks[k] == timeline.timeline[k]
    {
      var track := tracks[i];
      if track.kind == "text" {
        var clips := track.clips;
        var j := 0;
        while j < |clips|
          invariant 0 <= j <= |clips| && |clips| == |track.clips|
          invariant forall m :: 0 <= m < j ==> clips[m] == ReplaceText(track.clips[m], oldText, newText)
          invariant forall m :: j <= m < |clips| ==> clips[m] == track.clips[m]
        {
          var clip := clips[j];
          if clip.text.Some? && clip.text.value != "" && Contains(ToLower(clip.text.value), ToLower(oldText)) {
            clips := clips[j := clip.(text := Some(newText))];
          }
          j := j + 1;
        }
        tracks := tracks[i := track.(clips := clips)];
      }
      i := i + 1;
    }
    modified := timeline.(timeline := tracks);
  }

  /** Only text tracks are touched, and of their clips only the text: the track list, every id, the
      frames, styles and effects are kept; a matching clip gets `newText`, any other clip is kept. */
  lemma ChangeTextMeaning(timeline: VideoTimeline, oldText: string, newText: string)
    ensures var r := ChangedText(timeline, oldText, newText);
      r.project == timeline.project && |r.timeline| == |timeline.timeline| &&
      forall i :: 0 <= i < |timeline.timeline| ==>
        var t := timeline.timeline[i];
        r.timeline[i].id == t.id && r.timeline[i].kind == t.kind && |r.timeline[i].clips| == |t.clips| &&
        (t.kind != "text" ==> r.timeline[i] == t) &&
        forall j :: 0 <= j < |t.clips| ==>
          r.timeline[i].clips[j] == t.clips[j].(text := r.timeline[i].clips[j].text) &&
          r.timeline[i].clips[j].text == (if t.kind == "text" && TextMatches(t.clips[j], oldText) then Some(newText) else t.clips[j].text)
  {
  }

  /** Replacing twice with the same arguments is replacing once. */
  lemma ChangeTextIdempotent(timeline: VideoTimeline, oldText: string, newText: string)
    ensures ChangedText(ChangedText(timeline, oldText, newText), oldText, newText) == ChangedText(timeline, oldText, newText)
  {
    var r := ChangedText(timeline, oldText, newText);
    var rr := ChangedText(r, oldText, newText);
    forall i | 0 <= i < |timeline.timeline|
      ensures rr.timeline[i] == r.timeline[i]
    {
      var t := r.timeline[i];
      if t.kind == "text" {
        forall j | 0 <= j < |t.clips| ensures ReplaceText(t.clips[j], oldText, newText) == t.clips[j] {
        }
      }
    }
  }

  /** The match ignores case on both sides. */
  lemma ChangeTextIgnoresCase(clip: RemotionClip, oldText: string)
    ensures TextMatches(clip, oldText) == TextMatches(clip, ToLower(oldText))
  {
    ToLowerIdempotent(oldText);
  }

  // ---- changeTextColor ----

  function RecolorClip(clip: RemotionClip, color: string): RemotionClip
  {
    if clip.style.Some? then clip.(style := Some(clip.style.value.(color := color))) else clip
  }

  function RecolorTrack(track: RemotionTrack, color: string): RemotionTrack
  {
    if track.kind == "text"
    then track.(clips := seq(|track.clips|, j requires 0 <= j < |track.clips| => RecolorClip(track.clips[j], color)))
    else track
  }

  /** The timeline `changeTextColor` returns. */
  function RecoloredText(timeline: VideoTimeline, color: string): VideoTimeline
  {
    timeline.(timeline := seq(|timeline.timeline|, i requires 0 <= i < |timeline.timeline| =>
                                RecolorTrack(timeline.timeline[i], color)))
  }

  /** `changeTextColor`: every styled clip of every text track gets the colour. */
  method ChangeTextColor(timeline: VideoTimeline, color: string) returns (modified: VideoTimeline)
    ensures modified == RecoloredText(timeline, color)
  {
    var tracks := timeline.timeline;
    var i := 0;
    while i < |tracks|
      invariant 0 <= i <= |tracks| && |tracks| == |timeline.timeline|
      invariant forall k :: 0 <= k < i ==> tracks[k] == RecolorTrack(timeline.timeline[k], color)
      invariant forall k :: i <= k < |tracks| ==> tracks[k] == timeline.timeline[k]
    {
      var track := tracks[i];
      if track.kind == "text" {
        var clips := track.clips;
        var j := 0;
        while j < |clips|
          invariant 0 <= j <= |clips| && |clips| == |track.clips|
          invariant forall m :: 0 <= m < j ==> clips[m] == RecolorClip(track.clips[m], color)
          invariant forall m :: j <= m < |clips| ==> clips[m] == track.clips[m]
        {
          var clip := clips[j];
          if clip.style.Some? {
            clips := clips[j := clip.(style := Some(clip.style.value.(color := color)))];
          }
          j := j + 1;
        }
        tracks := tracks[i := track.(clips := clips)];
      }
      i := i + 1;
    }
    modified := timeline.(timeline := tracks);
  }

  /** Afterwards every styled clip on a text track has the colour; clips without a style and tracks
      of other types are left as they were, and only the colour of a style changes: every other
      field of every track and clip is kept. */
  lemma ChangeTextColorMeaning(timeline: VideoTimeline, color: string)
    ensures var r := RecoloredText(timeline, color);
      r.project == timeline.project && |r.timeline| == |timeline.timeline| &&
      forall i :: 0 <= i < |timeline.timeline| ==>
        var t := timeline.timeline[i];
        r.timeline[i].id == t.id && r.timeline[i].kind == t.kind && |r.timeline[i].clips| == |t.clips| &&
        (t.kind != "text" ==> r.timeline[i] == t) &&
        forall j :: 0 <= j < |t.clips| ==>
          r.timeline[i].clips[j] == t.clips[j].(style := r.timeline[i].clips[j].style) &&
          (t.clips[j].style.None? ==> r.timeline[i].clips[j] == t.clips[j]) &&
          (t.kind == "text" && t.clips[j].style.Some? ==>
             r.timeline[i].clips[j].style == Some(t.clips[j].style.value.(color := color)))
  {
  }

  /** Recolouring twice ends like recolouring once with the second colour. */
  lemma ChangeTextColorLastWins(timeline: VideoTimeline, c1: string, c2: string)
    ensures RecoloredText(RecoloredText(timeline, c1), c2) == RecoloredText(timeline, c2)
  {
    var r1 := RecoloredText(timeline, c1);
    forall i | 0 <= i < |timeline.timeline|
      ensures RecolorTrack(r1.timeline[i], c2) == RecolorTrack(timeline.timeline[i], c2)
    {
    }
  }

  // ---- addTextOverlay ----

  /** Where the overlay starts: `beginning` at frame 0, `middle` at 150, anything else at 300. */
  function OverlayStart(position: string): int
  {
    if position == "beginning" then 0 else if position == "middle" then 150 else 300
  }

  /** Index of the first track typed 'text'. */
  function FirstTextTrack(tracks: seq<RemotionTrack>): (r: Option<nat>)
    ensures r.None? <==> forall i :: 0 <= i < |tracks| ==> tracks[i].kind != "text"
    ensures r.Some? ==> r.value < |tracks| && tracks[r.value].kind == "text" &&
                        forall i :: 0 <= i < r.value ==> tracks[i].kind != "text"
    decreases |tracks|
  {
    if tracks == [] then None
    else if tracks[0].kind == "text" then Some(0)
    else
      var r := FirstTextTrack(tracks[1..]);
      assert forall i :: 1 <= i < |tracks| ==> tracks[i] == tracks[1..][i - 1];
      if r.Some? then Some(r.value + 1) else None
  }

  /** The overlay clip: a medium-length text clip with default style and a 15-frame fade-in. */
  function OverlayClip(clipId: string, text: string, position: string): RemotionClip
  {
    TimelineHelpers.AddFadeIn(
      TimelineHelpers.CreateTextClip(clipId, text, OverlayStart(position), TimelineHelpers.MediumDuration,
                                     TimelineHelpers.NoOverride), 15)
  }

  /** `addTextOverlay`: appends the overlay to the first text track, or to a new text track named by
      `getNextTrackId` appended at the end. `clipId` stands for the generated clip id and `now` for
      the clock reading `createTrack` would use without an id (it always has one here). */
  function AddTextOverlay(timeline: VideoTimeline, text: string, position: string, clipId: string, now: nat): VideoTimeline
  {
    var tracks := timeline.timeline;
    var clip := OverlayClip(clipId, text, position);
    match FirstTextTrack(tracks)
    case Some(i) => timeline.(timeline := tracks[i := tracks[i].(clips := tracks[i].clips + [clip])])
    case None =>
      var track := TimelineHelpers.CreateTrack("text", TimelineHelpers.GetNextTrackId(tracks), now);
      timeline.(timeline := tracks + [track.(clips := [clip])])
  }

  function ClipCount(tracks: seq<RemotionTrack>): nat
    decreases |tracks|
  {
    if tracks == [] then 0 else |tracks[0].clips| + ClipCount(tracks[1..])
  }

  lemma {:induction false} ClipCountUpdate(tracks: seq<RemotionTrack>, i: nat, t: RemotionTrack)
    requires i < |tracks|
    ensures ClipCount(tracks[i := t]) == ClipCount(tracks) - |tracks[i].clips| + |t.clips|
    decreases |tracks|
  {
    if i > 0 {
      assert tracks[i := t][1..] == tracks[1..][i - 1 := t];
      ClipCountUpdate(tracks[1..], i - 1, t);
    }
  }

  lemma {:induction false} ClipCountAppend(tracks: seq<RemotionTrack>, t: RemotionTrack)
    ensures ClipCount(tracks + [t]) == ClipCount(tracks) + |t.clips|
    decreases |tracks|
  {
    if tracks == [] {
      assert [t][1..] == [];
    } else {
      assert (tracks + [t])[1..] == tracks[1..] + [t];
      ClipCountAppend(tracks[1..], t);
    }
  }

  /** The overlay starts at 0, 150 or 300, lasts 90 frames, carries exactly one effect, a 15-frame
      fade-in, and the default style. */
  lemma OverlayClipShape(clipId: string, text: string, position: string)
    ensures var c := OverlayClip(clipId, text, position);
      c.id == clipId && c.text == Some(text) && c.durationInFrames == 90 &&
      c.startInFrames == (if position == "beginning" then 0 else if position == "middle" then 150 else 300) &&
      c.effects == [Effect(FadeIn, 15, None)] &&
      c.style == Some(TimelineHelpers.DefaultTextStyle)
  {
    TimelineHelpers.MergeStyleOverrideWins(TimelineHelpers.NoOverride);
  }

  /** Exactly one clip is added: at the end of the first text track when there is one, else as the
      only clip of a new text track with a fresh `track-N` id appended after all others; no other
      track changes. */
  lemma AddTextOverlayMeaning(timeline: VideoTimeline, text: string, position: string, clipId: string, now: nat)
    ensures var r := AddTextOverlay(timeline, text, position, clipId, now);
      var tracks := timeline.timeline;
      var clip := OverlayClip(clipId, text, position);
      r.project == timeline.project &&
      ClipCount(r.timeline) == ClipCount(tracks) + 1 &&
      match FirstTextTrack(tracks)
      case Some(i) =>
        |r.timeline| == |tracks| && r.timeline[i].clips == tracks[i].clips + [clip] &&
        r.timeline[i].id == tracks[i].id &&
        forall k :: 0 <= k < |tracks| && k != i ==> r.timeline[k] == tracks[k]
      case None =>
        r.timeline[..|tracks|] == tracks && |r.timeline| == |tracks| + 1 &&
        r.timeline[|tracks|].kind == "text" && r.timeline[|tracks|].clips == [clip] &&
        forall k :: 0 <= k < |tracks| ==> r.timeline[|tracks|].id != tracks[k].id
  {
    var tracks := timeline.timeline;
    var clip := OverlayClip(clipId, text, position);
    match FirstTextTrack(tracks) {
      case Some(i) =>
        ClipCountUpdate(tracks, i, tracks[i].(clips := tracks[i].clips + [clip]));
      case None =>
        var track := TimelineHelpers.CreateTrack("text", TimelineHelpers.GetNextTrackId(tracks), now);
        ClipCountAppend(tracks, track.(clips := [clip]));
        TimelineHelpers.NextTrackIdIsFresh(tracks);
        assert (tracks + [track.(clips := [clip])])[..|tracks|] == tracks;
    }
  }
}
