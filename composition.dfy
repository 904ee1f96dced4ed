/** The track-type dispatch of the composition, written identically in
    backend/remotion/VideoComposition.js and frontend/src/remotion/VideoComposition.tsx: every clip
    gets a `Sequence` from its start for its duration, holding the component its track's type selects. */
module Composition {
  import opened TimelineTypes
  import RemotionTimeline

  datatype Component = VideoComponent | TextComponent | NoComponent

  /** 'video' selects the video component, 'text' the text component, anything else nothing. */
  function ComponentFor(trackKind: string): Component
  {
    if trackKind == "video" then VideoComponent
    else if trackKind == "text" then TextComponent
    else NoComponent
  }

  /** A component on screen, with the clip it draws. */
  datatype Mount = Mount(component: Component, clip: RemotionClip)

  function MountedInTrack(kind: string, clips: seq<RemotionClip>, frame: int): seq<Mount>
    decreases |clips|
  {
    if clips == [] then []
    else
      (if RemotionTimeline.ClipActiveAt(clips[0], frame) && ComponentFor(kind) != NoComponent
       then [Mount(ComponentFor(kind), clips[0])] else [])
      + MountedInTrack(kind, clips[1..], frame)
  }

  /** The components showing at composition frame `frame`, track by track, in clip order. */
  function Mounted(timeline: VideoTimeline, frame: int): seq<Mount>
  {
    MountedTracks(timeline.timeline, frame)
  }

  function MountedTracks(tracks: seq<RemotionTrack>, frame: int): seq<Mount>
    decreases |tracks|
  {
    if tracks == [] then []
    else MountedInTrack(tracks[0].kind, tracks[0].clips, frame) + MountedTracks(tracks[1..], frame)
  }

  /** The dispatch is total and picks the component by the exact track type. */
  lemma DispatchByTrackType(trackKind: string)
    ensures ComponentFor(trackKind) == VideoComponent <==> trackKind == "video"
    ensures ComponentFor(trackKind) == TextComponent <==> trackKind == "text"
    ensures ComponentFor(trackKind) == NoComponent <==> trackKind != "video" && trackKind != "text"
  {
  }

  lemma {:induction false} MountedInTrackMembers(kind: string, clips: seq<RemotionClip>, frame: int)
    ensures forall m :: m in MountedInTrack(kind, clips, frame) <==>
              m.clip in clips && RemotionTimeline.ClipActiveAt(m.clip, frame) &&
              m.component == ComponentFor(kind) && m.component != NoComponent
    decreases |clips|
  {
    if clips != [] {
      MountedInTrackMembers(kind, clips[1..], frame);
      assert forall c :: c in clips <==> c == clips[0] || c in clips[1..];
    }
  }

  /** A component shows at `frame` exactly for a clip whose window `[start, start + duration)` holds
      the frame, on a 'video' or 'text' track, and it is the component that track's type selects. */
  lemma {:induction false} MountedMembers(tracks: seq<RemotionTrack>, frame: int)
    ensures forall m :: m in MountedTracks(tracks, frame) <==>
              exists t :: t in tracks && m.clip in t.clips && RemotionTimeline.ClipActiveAt(m.clip, frame) &&
                m.component == ComponentFor(t.kind) && m.component != NoComponent
    decreases |tracks|
  {
    if tracks != [] {
      MountedInTrackMembers(tracks[0].kind, tracks[0].clips, frame);
      MountedMembers(tracks[1..], frame);
      assert forall t :: t in tracks <==> t == tracks[0] || t in tracks[1..];
    }
  }

  /** Every mounted clip is one of the active clips of the timeline queries. */
  lemma MountedAreActive(timeline: VideoTimeline, frame: int)
    ensures forall m :: m in Mounted(timeline, frame) ==>
              exists t :: (t, m.clip) in RemotionTimeline.ActiveClips(timeline.timeline, frame)
  {
    MountedMembers(timeline.timeline, frame);
    RemotionTimeline.ActiveClipsMembers(timeline.timeline, frame);
    forall m | m in Mounted(timeline, frame)
      ensures exists t :: (t, m.clip) in RemotionTimeline.ActiveClips(timeline.timeline, frame)
    {
      var t :| t in timeline.timeline && m.clip in t.clips && RemotionTimeline.ClipActiveAt(m.clip, frame) &&
               m.component == ComponentFor(t.kind) && m.component != NoComponent;
      assert (t, m.clip) in RemotionTimeline.ActiveClips(timeline.timeline, frame);
    }
  }
}
