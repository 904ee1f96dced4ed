/** The editor's state container (frontend/src/stores/timelineStore.ts): one object whose actions
    replace its fields. Generated ids, random colours and the clock are parameters. */
module EditorStore {
  import opened Wrappers
  import opened TimelineTypes
  import Seqs
  import RemotionTimeline
  import EditorOps

  /** The colours `generateColor` picks from. */
  const Palette: seq<string> := ["#FF6B6B", "#4ECDC4", "#45B7D1", "#96CEB4", "#FFEAA7", "#DDA6CA", "#74B9FF", "#A29BFE"]

  const BasePixelsPerSecond := 50.0

  class TimelineStore {
    var tracks: seq<Track>
    var assets: seq<MediaAsset>
    var playheadPosition: real
    var zoom: real
    var selectedClipIds: seq<string>
    var duration: real
    var pixelsPerSecond: real
    var snapToGrid: bool
    const gridSize: real

    /** What every action keeps: the zoom within its clamp, the pixel scale derived from it, the
        duration at least the two-minute minimum and a selection without repeated ids. */
    ghost predicate Valid()
      reads this
    {
      0.1 <= zoom <= 10.0 && pixelsPerSecond == BasePixelsPerSecond * zoom &&
      duration >= EditorOps.MinDuration && Seqs.NoDuplicates(selectedClipIds)
    }

    /** Two empty tracks, no assets, zoom 1, a two-minute timeline and snapping on. */
    constructor ()
      ensures Valid()
      ensures tracks == [Track("track-1", "Track 1", EditorOps.TrackHeight, false, false, "#4ECDC4", [], ""),
                         Track("track-2", "Track 2", EditorOps.TrackHeight, false, false, "#FF6B6B", [], "")]
      ensures assets == [] && selectedClipIds == [] && playheadPosition == 0.0
      ensures zoom == 1.0 && pixelsPerSecond == 50.0 && duration == 120.0
      ensures snapToGrid && gridSize == 0.1
    {
      tracks := [Track("track-1", "Track 1", EditorOps.TrackHeight, false, false, "#4ECDC4", [], ""),
                 Track("track-2", "Track 2", EditorOps.TrackHeight, false, false, "#FF6B6B", [], "")];
      assets := [];
      playheadPosition := 0.0;
      zoom := 1.0;
      selectedClipIds := [];
      duration := 120.0;
      pixelsPerSecond := 50.0;
      snapToGrid := true;
      gridSize := 0.1;
    }

    /** Appends an empty track; `id` and `color` are the generated ones. */
    method AddTrack(name: string, id: string, color: string)
      requires Valid()
      requires color in Palette
      requires forall t :: t in tracks ==> t.id != id
      modifies this`tracks
      ensures Valid()
      ensures tracks == old(tracks) + [EditorOps.NewTrack(id, name, |old(tracks)|, color)]
      ensures tracks[|tracks| - 1].clips == [] && tracks[|tracks| - 1].name != ""
    {
      tracks := tracks + [EditorOps.NewTrack(id, name, |tracks|, color)];
    }

    method RemoveTrack(trackId: string)
      requires Valid()
      modifies this`tracks, this`selectedClipIds
      ensures Valid()
      ensures tracks == EditorOps.RemoveTrackFrom(old(tracks), trackId)
      ensures selectedClipIds == EditorOps.PruneSelection(old(selectedClipIds), old(tracks), trackId)
    {
      EditorOps.SelectionStaysDistinct(selectedClipIds, tracks, "", trackId, false);
      selectedClipIds := EditorOps.PruneSelection(selectedClipIds, tracks, trackId);
      tracks := EditorOps.RemoveTrackFrom(tracks, trackId);
    }

    method AddAsset(asset: MediaAsset)
      requires Valid()
      modifies this`assets
      ensures Valid()
      ensures assets == old(assets) + [asset]
    {
      assets := assets + [asset];
    }

    method RemoveAsset(assetId: string)
      requires Valid()
      modifies this`assets, this`tracks
      ensures Valid()
      ensures assets == EditorOps.RemoveAssetFrom(old(assets), assetId)
      ensures tracks == EditorOps.RemoveAssetClips(old(tracks), assetId)
    {
      assets := EditorOps.RemoveAssetFrom(assets, assetId);
      tracks := EditorOps.RemoveAssetClips(tracks, assetId);
    }

    /** The first asset with the id. */
    method GetAsset(assetId: string) returns (r: Option<MediaAsset>)
      ensures r.None? <==> forall a :: a in assets ==> a.id != assetId
      ensures r.Some? ==> r.value in assets && r.value.id == assetId
      ensures r == RemotionTimeline.FindAsset(assets, assetId)
    {
      r := RemotionTimeline.FindAsset(assets, assetId);
      if r.Some? {
        var k :| RemotionTimeline.FirstWithId(assets, assetId, k) && assets[k] == r.value;
      }
    }

    /** Adds a media clip (from the asset with `assetId`, if any) and re-derives the duration. */
    method AddClip(trackId: string, startTime: real, assetId: Option<string>, newId: string, color: string, now: nat)
      requires Valid()
      requires color in Palette
      requires !EditorOps.AnyTrackHasClip(tracks, newId)
      modifies this`tracks, this`duration
      ensures Valid()
      ensures tracks == EditorOps.AppendClip(old(tracks), trackId,
                          EditorOps.NewMediaClip(newId, trackId, startTime, EditorOps.ResolveAsset(assets, assetId), color, now))
      ensures duration == EditorOps.PaddedDuration(tracks)
    {
      var clip := EditorOps.NewMediaClip(newId, trackId, startTime, EditorOps.ResolveAsset(assets, assetId), color, now);
      tracks := EditorOps.AppendClip(tracks, trackId, clip);
      UpdateTimelineDuration();
    }

    method AddClipFromAsset(trackId: string, startTime: real, asset: MediaAsset, newId: string, color: string)
      requires Valid()
      requires color in Palette
      requires !EditorOps.AnyTrackHasClip(tracks, newId)
      modifies this`tracks, this`duration
      ensures Valid()
      ensures tracks == EditorOps.AppendClip(old(tracks), trackId,
                          EditorOps.NewMediaClip(newId, trackId, startTime, Some(asset), color, 0))
      ensures duration == EditorOps.PaddedDuration(tracks)
    {
      tracks := EditorOps.AppendClip(tracks, trackId, EditorOps.NewMediaClip(newId, trackId, startTime, Some(asset), color, 0));
      UpdateTimelineDuration();
    }

    method AddTextClip(trackId: string, startTime: real, text: string, clipDuration: real, newId: string)
      requires Valid()
      requires !EditorOps.AnyTrackHasClip(tracks, newId)
      modifies this`tracks, this`duration
      ensures Valid()
      ensures tracks == EditorOps.AppendClip(old(tracks), trackId,
                          EditorOps.NewTextClip(newId, trackId, startTime, text, clipDuration))
      ensures duration == EditorOps.PaddedDuration(tracks)
    {
      tracks := EditorOps.AppendClip(tracks, trackId, EditorOps.NewTextClip(newId, trackId, startTime, text, clipDuration));
      UpdateTimelineDuration();
    }

    /** Removes the clip from every track and from the selection; the duration is left as it is. */
    method RemoveClip(clipId: string)
      requires Valid()
      modifies this`tracks, this`selectedClipIds
      ensures Valid()
      ensures tracks == EditorOps.RemoveClipFrom(old(tracks), clipId)
      ensures selectedClipIds == EditorOps.Deselect(old(selectedClipIds), clipId)
      ensures !EditorOps.AnyTrackHasClip(tracks, clipId) && clipId !in selectedClipIds
    {
      EditorOps.SelectionStaysDistinct(selectedClipIds, tracks, clipId, "", false);
      EditorOps.RemoveClipMeaning(tracks, selectedClipIds, clipId);
      tracks := EditorOps.RemoveClipFrom(tracks, clipId);
      selectedClipIds := EditorOps.Deselect(selectedClipIds, clipId);
    }

    /** One pass over the tracks collects the clip to move (the last track's find wins) and the
        tracks without it; the clip is then appended to the target track. */
    method MoveClip(clipId: string, newTrackId: string, newStartTime: real)
      requires Valid()
      modifies this`tracks, this`duration
      ensures Valid()
      ensures tracks == EditorOps.MoveClipIn(old(tracks), clipId, newTrackId, newStartTime)
      ensures duration == EditorOps.PaddedDuration(tracks)
    {
      var tracksWithoutClip, clipToMove := EditorOps.ExtractClip(tracks, clipId, newTrackId, newStartTime);
      if clipToMove.Some? {
        tracks := EditorOps.AppendClip(tracksWithoutClip, newTrackId, clipToMove.value);
      }
      UpdateTimelineDuration();
    }

    method TrimClip(clipId: string, side: EditorOps.TrimSide, newTime: real)
      requires Valid()
      modifies this`tracks, this`duration
      ensures Valid()
      ensures tracks == EditorOps.TrimClips(old(tracks), clipId, side, newTime)
      ensures duration == EditorOps.PaddedDuration(tracks)
    {
      tracks := EditorOps.TrimClips(tracks, clipId, side, newTime);
      UpdateTimelineDuration();
    }

    /** Splits the clip on every track holding it; `newIdFor(i)` is the id generated on track `i`.
        The duration is left as it is, which splitting never needs to change. */
    method SplitClip(clipId: string, splitTime: real, newIdFor: nat -> string)
      requires Valid()
      modifies this`tracks
      ensures Valid()
      ensures tracks == EditorOps.SplitTracks(old(tracks), clipId, splitTime, newIdFor)
      ensures EditorOps.PaddedDuration(tracks) == EditorOps.PaddedDuration(old(tracks))
    {
      EditorOps.SplitKeepsDuration(tracks, clipId, splitTime, newIdFor);
      tracks := EditorOps.SplitTracks(tracks, clipId, splitTime, newIdFor);
    }

    method SelectClip(clipId: string, multiSelect: bool)
      requires Valid()
      modifies this`tracks, this`selectedClipIds
      ensures Valid()
      ensures selectedClipIds == EditorOps.SelectIds(old(selectedClipIds), clipId, multiSelect)
      ensures tracks == EditorOps.MarkSelected(old(tracks), clipId, multiSelect)
    {
      EditorOps.SelectionStaysDistinct(selectedClipIds, tracks, clipId, "", multiSelect);
      selectedClipIds := EditorOps.SelectIds(selectedClipIds, clipId, multiSelect);
      tracks := EditorOps.MarkSelected(tracks, clipId, multiSelect);
    }

    method DeselectAllClips()
      requires Valid()
      modifies this`tracks, this`selectedClipIds
      ensures Valid()
      ensures selectedClipIds == []
      ensures tracks == EditorOps.DeselectAll(old(tracks))
    {
      selectedClipIds := [];
      tracks := EditorOps.DeselectAll(tracks);
    }

    method SetPlayheadPosition(position: real)
      requires Valid()
      modifies this`playheadPosition
      ensures Valid()
      ensures playheadPosition == position
    {
      playheadPosition := position;
    }

    /** Clamps the zoom to [0.1, 10] and scales 50 pixels per second by it. */
    method SetZoom(newZoom: real)
      requires Valid()
      modifies this`zoom, this`pixelsPerSecond
      ensures Valid()
      ensures zoom == EditorOps.ClampZoom(newZoom)
      ensures pixelsPerSecond == BasePixelsPerSecond * zoom
    {
      EditorOps.ClampZoomMeaning(newZoom);
      zoom := EditorOps.ClampZoom(newZoom);
      pixelsPerSecond := BasePixelsPerSecond * EditorOps.ClampZoom(newZoom);
    }

    method ToggleSnapToGrid()
      requires Valid()
      modifies this`snapToGrid
      ensures Valid()
      ensures snapToGrid == !old(snapToGrid)
    {
      snapToGrid := !snapToGrid;
    }

    method UpdateTrack(trackId: string, updates: EditorOps.TrackUpdate)
      requires Valid()
      modifies this`tracks
      ensures Valid()
      ensures tracks == EditorOps.UpdateTrackIn(old(tracks), trackId, updates)
    {
      tracks := EditorOps.UpdateTrackIn(tracks, trackId, updates);
    }

    method UpdateClip(clipId: string, updates: EditorOps.ClipUpdate)
      requires Valid()
      modifies this`tracks
      ensures Valid()
      ensures tracks == EditorOps.UpdateClipIn(old(tracks), clipId, updates)
    {
      tracks := EditorOps.UpdateClipIn(tracks, clipId, updates);
    }

    /** The furthest clip end, found by the source's nested loops, padded by a minute and at
        least two minutes. */
    method UpdateTimelineDuration()
      requires Valid()
      modifies this`duration
      ensures Valid()
      ensures duration == EditorOps.PaddedDuration(tracks)
    {
      var maxEndTime := 0.0;
      var i := 0;
      while i < |tracks|
        invariant 0 <= i <= |tracks|
        invariant EditorOps.TracksMaxEnd(tracks[i..], maxEndTime) == EditorOps.MaxEndTime(tracks)
      {
        var clips := tracks[i].clips;
        var trackStart := maxEndTime;
        var j := 0;
        while j < |clips|
          invariant 0 <= j <= |clips|
          invariant EditorOps.ClipsMaxEnd(clips[j..], maxEndTime) == EditorOps.ClipsMaxEnd(clips, trackStart)
        {
          var clipEnd := clips[j].startTime + clips[j].duration;
          assert clips[j..][1..] == clips[j + 1..];
          maxEndTime := EditorOps.Max(maxEndTime, clipEnd);
          j := j + 1;
        }
        assert tracks[i..][1..] == tracks[i + 1..];
        i := i + 1;
      }
      var newDuration := EditorOps.Max(EditorOps.MinDuration, maxEndTime + EditorOps.Padding);
      if newDuration != duration {
        duration := newDuration;
      }
    }

    /** Replaces the tracks by the converted ones, clears the selection and rewinds the playhead; a
        timeline that is not an array leaves everything as it was. The duration is not re-derived. */
    method LoadTimelineFromAI(aiTimeline: RawTimeline, generatedId: (nat, nat) -> string,
                              trackColor: nat -> string, clipColor: (nat, nat) -> string)
      requires Valid()
      modifies this`tracks, this`selectedClipIds, this`playheadPosition
      ensures Valid()
      ensures var loaded := EditorOps.LoadTracks(aiTimeline, generatedId, trackColor, clipColor);
        (loaded.None? ==> tracks == old(tracks) && selectedClipIds == old(selectedClipIds) &&
                          playheadPosition == old(playheadPosition)) &&
        (loaded.Some? ==> tracks == loaded.value && selectedClipIds == [] && playheadPosition == 0.0)
    {
      var loaded := EditorOps.LoadTracks(aiTimeline, generatedId, trackColor, clipColor);
      if loaded.Some? {
        tracks := loaded.value;
        selectedClipIds := [];
        playheadPosition := 0.0;
      }
    }
  }
}
