/** `validateTimeline` (backend/prompts/timelineHelpers.js): the structural check of a timeline
    as parsed JSON, reporting one error per missing or ill-typed field. */
module TimelineValidation {
  import opened Wrappers
  import opened TimelineTypes

  /** The messages, with the index or ids they name. */
  datatype ValidationError =
    | MissingProject
    | MissingTimelineArray
    | TrackMissingIdOrType(trackIndex: nat)
    | ClipMissingId(trackId: string, clipIndex: nat)
    | InvalidStartInFrames(trackId: string, clipId: string)
    | InvalidDurationInFrames(trackId: string, clipId: string)

  /** The returned list, or the `TypeError` that `forEach` raises on a truthy `timeline` that is not an array. */
  datatype Validation = Errors(errors: seq<ValidationError>) | Threw

  function ClipErrors(trackId: string, clip: RawClip, clipIndex: nat): seq<ValidationError>
  {
    (if clip.id == "" then [ClipMissingId(trackId, clipIndex)] else [])
    + (if clip.startInFrames.None? then [InvalidStartInFrames(trackId, clip.id)] else [])
    + (if clip.durationInFrames.None? then [InvalidDurationInFrames(trackId, clip.id)] else [])
  }

  /** The errors of the first `|clips|` clips of a track, in order. */
  function ClipsErrors(trackId: string, clips: seq<RawClip>): seq<ValidationError>
    decreases |clips|
  {
    if clips == [] then []
    else ClipsErrors(trackId, clips[..|clips| - 1]) + ClipErrors(trackId, clips[|clips| - 1], |clips| - 1)
  }

  function TrackErrors(track: RawTrack, trackIndex: nat): seq<ValidationError>
  {
    (if track.id == "" || track.kind == "" then [TrackMissingIdOrType(trackIndex)] else [])
    + (match track.clips case None => [] case Some(clips) => ClipsErrors(track.id, clips))
  }

  function TracksErrors(tracks: seq<RawTrack>): seq<ValidationError>
    decreases |tracks|
  {
    if tracks == [] then []
    else TracksErrors(tracks[..|tracks| - 1]) + TrackErrors(tracks[|tracks| - 1], |tracks| - 1)
  }

  function HeaderErrors(timeline: RawTimeline): seq<ValidationError>
  {
    (if timeline.project.None? then [MissingProject] else [])
    + (if !timeline.timeline.Tracks? then [MissingTimelineArray] else [])
  }

  /** What `validateTimeline` returns or throws. */
  function TimelineErrors(timeline: RawTimeline): Validation
  {
    match timeline.timeline
    case Absent => Errors(HeaderErrors(timeline))
    case NotAnArray => Threw
    case Tracks(tracks) => Errors(HeaderErrors(timeline) + TracksErrors(tracks))
  }

  /** The inner `forEach` of `validateTimeline`, over one track's clips. */
  method ValidateClips(trackId: string, clips: seq<RawClip>) returns (errors: seq<ValidationError>)
    ensures errors == ClipsErrors(trackId, clips)
  {
    errors := [];
    var clipIndex := 0;
    while clipIndex < |clips|
      invariant 0 <= clipIndex <= |clips|
      invariant errors == ClipsErrors(trackId, clips[..clipIndex])
    {
      assert clips[..clipIndex + 1][..clipIndex] == clips[..clipIndex];
      assert ClipsErrors(trackId, clips[..clipIndex + 1]) ==
             ClipsErrors(trackId, clips[..clipIndex]) + ClipErrors(trackId, clips[clipIndex], clipIndex);
      errors := ValidateClip(trackId, clips[clipIndex], clipIndex, errors);
      clipIndex := clipIndex + 1;
    }
    assert clips[..|clips|] == clips;
  }

  /** One step of the inner `forEach`: pushes one clip's errors onto `errors`. */
  method ValidateClip(trackId: string, clip: RawClip, clipIndex: nat, errors: seq<ValidationError>)
    returns (pushed: seq<ValidationError>)
    ensures pushed == errors + ClipErrors(trackId, clip, clipIndex)
  {
    pushed := errors;
    if clip.id == "" {
      pushed := pushed + [ClipMissingId(trackId, clipIndex)];
    }
    if clip.startInFrames.None? {
      pushed := pushed + [InvalidStartInFrames(trackId, clip.id)];
    }
    if clip.durationInFrames.None? {
      pushed := pushed + [InvalidDurationInFrames(trackId, clip.id)];
    }
  }

  /** One step of the outer `forEach`: pushes one track's errors onto `errors`. */
  method ValidateTrack(track: RawTrack, trackIndex: nat, errors: seq<ValidationError>)
    returns (pushed: seq<ValidationError>)
    ensures pushed == errors + TrackErrors(track, trackIndex)
  {
    pushed := errors;
    if track.id == "" || track.kind == "" {
      pushed := pushed + [TrackMissingIdOrType(trackIndex)];
    }
    if track.clips.Some? {
      var clipErrors := ValidateClips(track.id, track.clips.value);
      pushed := pushed + clipErrors;
    }
  }

  /** The outer `forEach` of `validateTimeline`, over the tracks. */
  method ValidateTracks(tracks: seq<RawTrack>) returns (errors: seq<ValidationError>)
    ensures errors == TracksErrors(tracks)
  {
    errors := [];
    var trackIndex := 0;
    while trackIndex < |tracks|
      invariant 0 <= trackIndex <= |tracks|
      invariant errors == TracksErrors(tracks[..trackIndex])
    {
      assert tracks[..trackIndex + 1][..trackIndex] == tracks[..trackIndex];
      errors := ValidateTrack(tracks[trackIndex], trackIndex, errors);
      trackIndex := trackIndex + 1;
    }
    assert tracks[..|tracks|] == tracks;
  }

  /** `validateTimeline`: the header checks, then the track loop. */
  method ValidateTimeline(timeline: RawTimeline) returns (result: Validation)
    ensures result == TimelineErrors(timeline)
  {
    var errors: seq<ValidationError> := [];
    if timeline.project.None? {
      errors := errors + [MissingProject];
    }
    if !timeline.timeline.Tracks? {
      errors := errors + [MissingTimelineArray];
    }
    match timeline.timeline {
      case NotAnArray =>
        result := Threw;
      case Absent =>
        result := Errors(errors);
      case Tracks(tracks) =>
        var trackErrors := ValidateTracks(tracks);
        result := Errors(errors + trackErrors);
    }
  }

  predicate ClipWellFormed(clip: RawClip)
  {
    clip.id != "" && clip.startInFrames.Some? && clip.durationInFrames.Some?
  }

  predicate TrackWellFormed(track: RawTrack)
  {
    track.id != "" && track.kind != "" &&
    (track.clips.Some? ==> forall j :: 0 <= j < |track.clips.value| ==> ClipWellFormed(track.clips.value[j]))
  }

  /** A timeline passes exactly when it has a project and a track array whose every track has an id
      and a type and whose every clip has an id and numeric frame fields. */
  predicate WellFormed(timeline: RawTimeline)
  {
    timeline.project.Some? && timeline.timeline.Tracks? &&
    forall i :: 0 <= i < |timeline.timeline.tracks| ==> TrackWellFormed(timeline.timeline.tracks[i])
  }

  lemma {:induction false} ClipsErrorsEmpty(trackId: string, clips: seq<RawClip>)
    ensures ClipsErrors(trackId, clips) == [] <==> forall j :: 0 <= j < |clips| ==> ClipWellFormed(clips[j])
    decreases |clips|
  {
    if clips != [] {
      var n := |clips| - 1;
      var front := clips[..n];
      ClipsErrorsEmpty(trackId, front);
      assert ClipsErrors(trackId, clips) == ClipsErrors(trackId, front) + ClipErrors(trackId, clips[n], n);
      assert ClipErrors(trackId, clips[n], n) == [] <==> ClipWellFormed(clips[n]);
      assert forall j :: 0 <= j < n ==> front[j] == clips[j];
      if forall j :: 0 <= j < n ==> ClipWellFormed(front[j]) {
        assert (forall j :: 0 <= j < |clips| ==> ClipWellFormed(clips[j])) <==> ClipWellFormed(clips[n]);
      }
    }
  }

  /** One track reports nothing exactly when it is well formed. */
  lemma TrackErrorsEmpty(track: RawTrack, trackIndex: nat)
    ensures TrackErrors(track, trackIndex) == [] <==> TrackWellFormed(track)
  {
    if track.clips.Some? {
      ClipsErrorsEmpty(track.id, track.clips.value);
    }
  }

  lemma {:induction false} TracksErrorsEmpty(tracks: seq<RawTrack>)
    ensures TracksErrors(tracks) == [] <==> forall i :: 0 <= i < |tracks| ==> TrackWellFormed(tracks[i])
    decreases |tracks|
  {
    if tracks != [] {
      var n := |tracks| - 1;
      var front := tracks[..n];
      TracksErrorsEmpty(front);
      TrackErrorsEmpty(tracks[n], n);
      assert TracksErrors(tracks) == TracksErrors(front) + TrackErrors(tracks[n], n);
      assert forall i :: 0 <= i < n ==> front[i] == tracks[i];
      if forall i :: 0 <= i < n ==> TrackWellFormed(front[i]) {
        assert (forall i :: 0 <= i < |tracks| ==> TrackWellFormed(tracks[i])) <==> TrackWellFormed(tracks[n]);
      }
    }
  }

  /** The error list is empty exactly for a well-formed timeline; frame values themselves (sign,
      overlaps) and duplicate ids are not checked. */
  lemma ValidIffWellFormed(timeline: RawTimeline)
    ensures TimelineErrors(timeline) == Errors([]) <==> WellFormed(timeline)
  {
    if timeline.timeline.Tracks? {
      TracksErrorsEmpty(timeline.timeline.tracks);
    }
  }

  /** Negative or zero frame values pass: only presence and type are checked. */
  lemma SignNotChecked(project: ProjectSettings, start: int, duration: int)
    ensures TimelineErrors(RawTimeline(Some(project), Tracks([
              RawTrack("track-1", "video", Some([RawClip("c", Some(start), Some(duration), None, None, NoVisual, [])]))
            ]))) == Errors([])
  {
    var clips := [RawClip("c", Some(start), Some(duration), None, None, NoVisual, [])];
    assert clips[..0] == [];
    assert ClipsErrors("track-1", clips) == [];
    var tracks := [RawTrack("track-1", "video", Some(clips))];
    assert tracks[..0] == [];
    assert TracksErrors(tracks) == [];
  }
}
