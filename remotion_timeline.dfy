/** Timeline queries and the editor-to-renderer conversion (frontend/src/utils/timeline.ts, HEAD side). */
module RemotionTimeline {
  import opened Wrappers
  import opened TimelineTypes
  import Seqs

  function ClipEnd(clip: RemotionClip): int { clip.startInFrames + clip.durationInFrames }

  // ---- calculateTotalDuration ----

  /** Running maximum over the clips of one track, starting from `acc`. */
  function ClipsMaxEnd(clips: seq<RemotionClip>, acc: int): int
    decreases |clips|
  {
    if clips == [] then acc
    else ClipsMaxEnd(clips[1..], if ClipEnd(clips[0]) > acc then ClipEnd(clips[0]) else acc)
  }

  /** Running maximum over all tracks, track by track. */
  function TracksMaxEnd(tracks: seq<RemotionTrack>, acc: int): int
    decreases |tracks|
  {
    if tracks == [] then acc else TracksMaxEnd(tracks[1..], ClipsMaxEnd(tracks[0].clips, acc))
  }

  /** The total duration in frames: the furthest clip end, 0 for a timeline without clips. */
  function TotalDuration(timeline: VideoTimeline): int
  {
    TracksMaxEnd(timeline.timeline, 0)
  }

  predicate HasClipEndingAt(tracks: seq<RemotionTrack>, end: int)
  {
    exists i, j :: 0 <= i < |tracks| && 0 <= j < |tracks[i].clips| && ClipEnd(tracks[i].clips[j]) == end
  }

  lemma {:induction false} ClipsMaxEndBounds(clips: seq<RemotionClip>, acc: int)
    ensures ClipsMaxEnd(clips, acc) >= acc
    ensures forall j :: 0 <= j < |clips| ==> ClipEnd(clips[j]) <= ClipsMaxEnd(clips, acc)
    ensures ClipsMaxEnd(clips, acc) == acc ||
            exists j :: 0 <= j < |clips| && ClipEnd(clips[j]) == ClipsMaxEnd(clips, acc)
    decreases |clips|
  {
    if clips != [] {
      var acc' := if ClipEnd(clips[0]) > acc then ClipEnd(clips[0]) else acc;
      ClipsMaxEndBounds(clips[1..], acc');
      assert forall j :: 1 <= j < |clips| ==> clips[j] == clips[1..][j - 1];
      if ClipsMaxEnd(clips, acc) != acc && ClipsMaxEnd(clips, acc) != acc' {
        var j :| 0 <= j < |clips[1..]| && ClipEnd(clips[1..][j]) == ClipsMaxEnd(clips, acc);
        assert ClipEnd(clips[j + 1]) == ClipsMaxEnd(clips, acc);
      }
    }
  }

  lemma {:induction false} TracksMaxEndBounds(tracks: seq<RemotionTrack>, acc: int)
    ensures TracksMaxEnd(tracks, acc) >= acc
    ensures forall i, j :: 0 <= i < |tracks| && 0 <= j < |tracks[i].clips| ==>
              ClipEnd(tracks[i].clips[j]) <= TracksMaxEnd(tracks, acc)
    ensures TracksMaxEnd(tracks, acc) == acc || HasClipEndingAt(tracks, TracksMaxEnd(tracks, acc))
    decreases |tracks|
  {
    if tracks != [] {
      var acc' := ClipsMaxEnd(tracks[0].clips, acc);
      ClipsMaxEndBounds(tracks[0].clips, acc);
      TracksMaxEndBounds(tracks[1..], acc');
      assert forall i :: 1 <= i < |tracks| ==> tracks[i] == tracks[1..][i - 1];
      var m := TracksMaxEnd(tracks, acc);
      if m != acc {
        if m == acc' {
          var j :| 0 <= j < |tracks[0].clips| && ClipEnd(tracks[0].clips[j]) == m;
        } else {
          var i, j :| 0 <= i < |tracks[1..]| && 0 <= j < |tracks[1..][i].clips| && ClipEnd(tracks[1..][i].clips[j]) == m;
          assert ClipEnd(tracks[i + 1].clips[j]) == m;
        }
      }
    }
  }

  /** The total duration is at least every clip's end and at least 0, and it is either 0 or the end
      of some clip: the furthest end, or 0 when no clip ends after frame 0. */
  lemma TotalDurationIsFurthestEnd(timeline: VideoTimeline)
    ensures TotalDuration(timeline) >= 0
    ensures forall i, j :: 0 <= i < |timeline.timeline| && 0 <= j < |timeline.timeline[i].clips| ==>
              ClipEnd(timeline.timeline[i].clips[j]) <= TotalDuration(timeline)
    ensures TotalDuration(timeline) == 0 || HasClipEndingAt(timeline.timeline, TotalDuration(timeline))
    ensures (forall i :: 0 <= i < |timeline.timeline| ==> timeline.timeline[i].clips == []) ==> TotalDuration(timeline) == 0
  {
    TracksMaxEndBounds(timeline.timeline, 0);
  }

  /** `calculateTotalDuration`: the nested `forEach` keeping the largest clip end seen so far. */
  method CalculateTotalDuration(timeline: VideoTimeline) returns (maxEndFrame: int)
    ensures maxEndFrame == TotalDuration(timeline)
  {
    var tracks := timeline.timeline;
    maxEndFrame := 0;
    var i := 0;
    while i < |tracks|
      invariant 0 <= i <= |tracks|
      invariant TracksMaxEnd(tracks[i..], maxEndFrame) == TotalDuration(timeline)
    {
      var clips := tracks[i].clips;
      var trackStart := maxEndFrame;
      var j := 0;
      while j < |clips|
        invariant 0 <= j <= |clips|
        invariant ClipsMaxEnd(clips[j..], maxEndFrame) == ClipsMaxEnd(clips, trackStart)
      {
        var clipEndFrame := clips[j].startInFrames + clips[j].durationInFrames;
        assert clips[j..][1..] == clips[j + 1..];
        if clipEndFrame > maxEndFrame {
          maxEndFrame := clipEndFrame;
        }
        j := j + 1;
      }
      assert tracks[i..][1..] == tracks[i + 1..];
      i := i + 1;
    }
  }

  // ---- getActiveClipsAtFrame ----

  /** A clip is visible at `frame` when `start <= frame < start + duration`. */
  predicate ClipActiveAt(clip: RemotionClip, frame: int)
  {
    clip.startInFrames <= frame < ClipEnd(clip)
  }

  function ActiveInTrack(track: RemotionTrack, clips: seq<RemotionClip>, frame: int): seq<(RemotionTrack, RemotionClip)>
    decreases |clips|
  {
    if clips == [] then []
    else (if ClipActiveAt(clips[0], frame) then [(track, clips[0])] else []) + ActiveInTrack(track, clips[1..], frame)
  }

  /** The visible (track, clip) pairs, track by track and, within a track, in clip order. */
  function ActiveClips(tracks: seq<RemotionTrack>, frame: int): seq<(RemotionTrack, RemotionClip)>
    decreases |tracks|
  {
    if tracks == [] then [] else ActiveInTrack(tracks[0], tracks[0].clips, frame) + ActiveClips(tracks[1..], frame)
  }

  lemma {:induction false} ActiveInTrackMembers(track: RemotionTrack, clips: seq<RemotionClip>, frame: int)
    ensures forall p :: p in ActiveInTrack(track, clips, frame) <==> p.0 == track && p.1 in clips && ClipActiveAt(p.1, frame)
    ensures |ActiveInTrack(track, clips, frame)| <= |clips|
    decreases |clips|
  {
    if clips != [] {
      ActiveInTrackMembers(track, clips[1..], frame);
      assert forall c :: c in clips <==> c == clips[0] || c in clips[1..];
    }
  }

  /** Exactly the clips that are visible at the frame are returned, each paired with its track. */
  lemma {:induction false} ActiveClipsMembers(tracks: seq<RemotionTrack>, frame: int)
    ensures forall p :: p in ActiveClips(tracks, frame) <==> p.0 in tracks && p.1 in p.0.clips && ClipActiveAt(p.1, frame)
    decreases |tracks|
  {
    if tracks != [] {
      ActiveInTrackMembers(tracks[0], tracks[0].clips, frame);
      ActiveClipsMembers(tracks[1..], frame);
      assert forall t :: t in tracks <==> t == tracks[0] || t in tracks[1..];
    }
  }

  /** The inner `forEach` of `getActiveClipsAtFrame`: pushes the track's visible clips onto `activeClips`. */
  method PushActiveInTrack(track: RemotionTrack, frame: int, activeClips: seq<(RemotionTrack, RemotionClip)>)
    returns (pushed: seq<(RemotionTrack, RemotionClip)>)
    ensures pushed == activeClips + ActiveInTrack(track, track.clips, frame)
  {
    pushed := activeClips;
    var j := 0;
    while j < |track.clips|
      invariant 0 <= j <= |track.clips|
      invariant pushed + ActiveInTrack(track, track.clips[j..], frame) == activeClips + ActiveInTrack(track, track.clips, frame)
    {
      var clip := track.clips[j];
      assert track.clips[j..][1..] == track.clips[j + 1..];
      if frame >= clip.startInFrames && frame < clip.startInFrames + clip.durationInFrames {
        pushed := pushed + [(track, clip)];
      }
      j := j + 1;
    }
  }

  /** `getActiveClipsAtFrame`: the nested `forEach` pushing every visible clip. */
  method GetActiveClipsAtFrame(timeline: VideoTimeline, frame: int) returns (activeClips: seq<(RemotionTrack, RemotionClip)>)
    ensures activeClips == ActiveClips(timeline.timeline, frame)
  {
    var tracks := timeline.timeline;
    activeClips := [];
    var i := 0;
    while i < |tracks|
      invariant 0 <= i <= |tracks|
      invariant activeClips + ActiveClips(tracks[i..], frame) == ActiveClips(tracks, frame)
    {
      assert tracks[i..][1..] == tracks[i + 1..];
      ghost var before := activeClips;
      activeClips := PushActiveInTrack(tracks[i], frame, activeClips);
      assert before + ActiveClips(tracks[i..], frame)
          == before + (ActiveInTrack(tracks[i], tracks[i].clips, frame) + ActiveClips(tracks[i + 1..], frame));
      i := i + 1;
    }
  }

  // ---- convertTimelineToRemotionFormat ----

  const Fps := 30

  /** The fixed style every converted text clip gets. */
  const ConvertedTextStyle := TextStyle("Arial, sans-serif", 48.0, "bold", "white",
                                        Some("2px 2px 4px rgba(0,0,0,0.8)"), None, None)

  /** A text clip placed without a position is centred: `{ x: 50, y: 50, unit: '%' }`. */
  const CentredPosition := Position(50.0, 50.0, Some(Percent), None)

  /** Seconds to frames at 30 fps, rounding down. */
  function ToFrames(seconds: real): int { (seconds * Fps as real).Floor }

  /** A clip with text and no media reference is a text clip. */
  predicate IsTextClip(clip: Clip)
  {
    Truthy(clip.transcript) && !Truthy(clip.assetUrl) && !Truthy(clip.assetId)
  }

  predicate HasMedia(clip: Clip) { Truthy(clip.assetUrl) || Truthy(clip.assetId) }

  /** `k` is the first index holding an asset with that id. */
  predicate FirstWithId(assets: seq<MediaAsset>, id: string, k: int)
  {
    0 <= k < |assets| && assets[k].id == id && forall j :: 0 <= j < k ==> assets[j].id != id
  }

  /** `assets.find(a => a.id === id)`: the first asset with that id. */
  function FindAsset(assets: seq<MediaAsset>, id: string): (r: Option<MediaAsset>)
    ensures r.None? <==> forall a :: a in assets ==> a.id != id
    ensures r.Some? ==> exists k :: FirstWithId(assets, id, k) && assets[k] == r.value
    decreases |assets|
  {
    if assets == [] then None
    else if assets[0].id == id then (assert FirstWithId(assets, id, 0); Some(assets[0]))
    else
      var r := FindAsset(assets[1..], id);
      if r.Some? then
        var k :| FirstWithId(assets[1..], id, k) && assets[1..][k] == r.value;
        assert FirstWithId(assets, id, k + 1);
        r
      else r
  }

  /** The URL a media clip plays: its own when set, otherwise the URL of the asset it names. */
  function ResolvedUrl(clip: Clip, assets: seq<MediaAsset>): Option<string>
  {
    if Truthy(clip.assetUrl) then clip.assetUrl
    else if !Truthy(clip.assetId) then None
    else match FindAsset(assets, clip.assetId.value)
      case None => None
      case Some(a) => Some(a.url)
  }

  /** The mapping of one editor clip, `None` for a clip the conversion drops. */
  function ConvertClip(clip: Clip, assets: seq<MediaAsset>): Option<RemotionClip>
  {
    if !(HasMedia(clip) || Truthy(clip.transcript)) then None
    else if IsTextClip(clip) then
      Some(RemotionClip(clip.id, ToFrames(clip.startTime), ToFrames(clip.duration), None, None, None,
                        clip.transcript, Some(ConvertedTextStyle),
                        Visual(None, Some(clip.visual.position.GetOr(CentredPosition)), None, None),
                        None, clip.effects))
    else
      var url := ResolvedUrl(clip, assets);
      if !Truthy(url) then None
      else
        Some(RemotionClip(clip.id, ToFrames(clip.startTime), ToFrames(clip.duration), url,
                          Some(ToFrames(clip.trimStart)), Some(ToFrames(clip.trimStart + clip.duration)),
                          None, None, clip.visual, None, clip.effects))
  }

  function ConvertClips(clips: seq<Clip>, assets: seq<MediaAsset>): seq<RemotionClip>
    decreases |clips|
  {
    if clips == [] then []
    else
      (match ConvertClip(clips[0], assets) case None => [] case Some(c) => [c])
      + ConvertClips(clips[1..], assets)
  }

  predicate HasTextClips(clips: seq<Clip>) { exists i :: 0 <= i < |clips| && IsTextClip(clips[i]) }

  predicate HasVideoClips(clips: seq<Clip>) { exists i :: 0 <= i < |clips| && HasMedia(clips[i]) }

  /** The output track's `type`, decided on all of the track's clips, dropped ones included. */
  function TrackType(track: Track): string
  {
    if HasTextClips(track.clips) && !HasVideoClips(track.clips) then "text"
    else if track.kind != "" then track.kind
    else "video"
  }

  predicate HasClips(track: Track) { |track.clips| > 0 }

  function ConvertTrack(track: Track, assets: seq<MediaAsset>): RemotionTrack
  {
    RemotionTrack(track.id, TrackType(track), ConvertClips(track.clips, assets))
  }

  /** `convertTimelineToRemotionFormat`: tracks without clips are dropped, the rest converted in order. */
  function ConvertTimelineToRemotionFormat(tracks: seq<Track>, assets: seq<MediaAsset>): (r: VideoTimeline)
    ensures r.project == ProjectSettings(1920, 1080, 30)
  {
    var kept := Seqs.Filter(tracks, HasClips);
    VideoTimeline(ProjectSettings(1920, 1080, Fps),
                  seq(|kept|, i requires 0 <= i < |kept| => ConvertTrack(kept[i], assets)))
  }

  /** Every input track with clips appears converted in the output, and every output track is the
      conversion of an input track with clips: empty tracks are dropped and no track is invented. */
  lemma ConvertKeepsTracksWithClips(tracks: seq<Track>, assets: seq<MediaAsset>)
    ensures |ConvertTimelineToRemotionFormat(tracks, assets).timeline| <= |tracks|
    ensures forall i :: 0 <= i < |tracks| && tracks[i].clips != [] ==>
              ConvertTrack(tracks[i], assets) in ConvertTimelineToRemotionFormat(tracks, assets).timeline
    ensures forall t :: t in ConvertTimelineToRemotionFormat(tracks, assets).timeline ==>
              exists i :: 0 <= i < |tracks| && tracks[i].clips != [] && t == ConvertTrack(tracks[i], assets)
  {
    var kept := Seqs.Filter(tracks, HasClips);
    var r := ConvertTimelineToRemotionFormat(tracks, assets).timeline;
    forall i | 0 <= i < |tracks| && tracks[i].clips != []
      ensures exists k :: 0 <= k < |r| && r[k] == ConvertTrack(tracks[i], assets)
    {
      assert tracks[i] in kept;
      var k :| 0 <= k < |kept| && kept[k] == tracks[i];
      assert r[k] == ConvertTrack(tracks[i], assets);
    }
    forall t | t in r
      ensures exists i :: 0 <= i < |tracks| && tracks[i].clips != [] && t == ConvertTrack(tracks[i], assets)
    {
      var k :| 0 <= k < |r| && r[k] == t;
      assert kept[k] in tracks && |kept[k].clips| > 0;
      var i :| 0 <= i < |tracks| && tracks[i] == kept[k];
      assert t == ConvertTrack(tracks[i], assets);
    }
  }

  /** A text clip becomes a text clip with its own text, the fixed style and its position (centred by
      default), frames rounded down at 30 fps. */
  lemma ConvertTextClip(clip: Clip, assets: seq<MediaAsset>)
    requires IsTextClip(clip)
    ensures ConvertClip(clip, assets).Some?
    ensures var c := ConvertClip(clip, assets).value;
      c.id == clip.id && c.text == clip.transcript && c.style == Some(ConvertedTextStyle) &&
      c.assetUrl.None? && c.sourceIn.None? && c.sourceOut.None? &&
      c.visual.position == Some(if clip.visual.position.Some? then clip.visual.position.value else CentredPosition) &&
      c.effects == clip.effects &&
      c.startInFrames as real <= clip.startTime * 30.0 < c.startInFrames as real + 1.0 &&
      c.durationInFrames as real <= clip.duration * 30.0 < c.durationInFrames as real + 1.0
  {
  }

  /** A media clip is kept exactly when a URL resolves for it: its own, or else the URL of the first
      asset carrying its asset id; start and duration are rounded down to frames at 30 fps, and the
      trim start and trim start plus duration become the source window in frames. */
  lemma ConvertMediaClip(clip: Clip, assets: seq<MediaAsset>)
    requires HasMedia(clip)
    ensures ConvertClip(clip, assets).Some? <==>
              Truthy(clip.assetUrl) ||
              (Truthy(clip.assetId) && exists k :: FirstWithId(assets, clip.assetId.value, k) && assets[k].url != "")
    ensures ConvertClip(clip, assets).Some? ==>
      var c := ConvertClip(clip, assets).value;
      c.id == clip.id && c.text.None? && c.style.None? && c.visual == clip.visual && c.effects == clip.effects &&
      (Truthy(clip.assetUrl) ==> c.assetUrl == clip.assetUrl) &&
      (!Truthy(clip.assetUrl) ==>
         exists k :: FirstWithId(assets, clip.assetId.value, k) && c.assetUrl == Some(assets[k].url)) &&
      c.startInFrames == ToFrames(clip.startTime) && c.durationInFrames == ToFrames(clip.duration) &&
      c.startInFrames as real <= clip.startTime * 30.0 < c.startInFrames as real + 1.0 &&
      c.durationInFrames as real <= clip.duration * 30.0 < c.durationInFrames as real + 1.0 &&
      c.sourceIn == Some(ToFrames(clip.trimStart)) &&
      c.sourceOut == Some(ToFrames(clip.trimStart + clip.duration))
  {
    var url := ResolvedUrl(clip, assets);
    assert !IsTextClip(clip);
    assert ConvertClip(clip, assets) ==
      if !Truthy(url) then None
      else Some(RemotionClip(clip.id, ToFrames(clip.startTime), ToFrames(clip.duration), url,
                             Some(ToFrames(clip.trimStart)), Some(ToFrames(clip.trimStart + clip.duration)),
                             None, None, clip.visual, None, clip.effects));
    if !Truthy(clip.assetUrl) {
      ResolvedUrlFromAsset(clip, assets);
    }
  }

  /** Without a URL of its own, a media clip resolves to the URL of the first asset with its id. */
  lemma ResolvedUrlFromAsset(clip: Clip, assets: seq<MediaAsset>)
    requires HasMedia(clip) && !Truthy(clip.assetUrl)
    ensures Truthy(ResolvedUrl(clip, assets)) <==>
              exists k :: FirstWithId(assets, clip.assetId.value, k) && assets[k].url != ""
    ensures Truthy(ResolvedUrl(clip, assets)) ==>
              exists k :: FirstWithId(assets, clip.assetId.value, k) && ResolvedUrl(clip, assets) == Some(assets[k].url)
  {
    var id := clip.assetId.value;
    var f := FindAsset(assets, id);
    if f.Some? {
      var k :| FirstWithId(assets, id, k) && assets[k] == f.value;
      forall k' | FirstWithId(assets, id, k') ensures k' == k {
      }
    } else {
      forall k | 0 <= k < |assets| ensures assets[k].id != id {
        assert assets[k] in assets;
      }
    }
  }

  /** Conversion never adds clips and keeps every clip it can render, in order of appearance. */
  lemma {:induction false} ConvertClipsCount(clips: seq<Clip>, assets: seq<MediaAsset>)
    ensures |ConvertClips(clips, assets)| <= |clips|
    ensures forall c :: c in ConvertClips(clips, assets) <==>
              exists i :: 0 <= i < |clips| && ConvertClip(clips[i], assets) == Some(c)
    decreases |clips|
  {
    if clips != [] {
      ConvertClipsCount(clips[1..], assets);
      assert forall i :: 1 <= i < |clips| ==> clips[i] == clips[1..][i - 1];
      forall c | exists i :: 0 <= i < |clips| && ConvertClip(clips[i], assets) == Some(c)
        ensures c in ConvertClips(clips, assets)
      {
        var i :| 0 <= i < |clips| && ConvertClip(clips[i], assets) == Some(c);
        if i > 0 {
          assert ConvertClip(clips[1..][i - 1], assets) == Some(c);
        }
      }
    }
  }

  /** A track holding only text clips is typed "text"; a track with any media clip keeps its own
      type, "video" when it has none. */
  lemma TrackTypeRule(track: Track)
    ensures (HasTextClips(track.clips) && !HasVideoClips(track.clips)) ==> TrackType(track) == "text"
    ensures HasVideoClips(track.clips) ==> TrackType(track) == (if track.kind == "" then "video" else track.kind)
    ensures !HasTextClips(track.clips) && track.kind == "" ==> TrackType(track) == "video"
  {
  }
}
