/** The state transitions of the editor store (frontend/src/stores/timelineStore.ts) as functions
    of the old state: the `map`/`filter` bodies its actions pass to `set`. The store class applies them. */
module EditorOps {
  import opened Wrappers
  import opened TimelineTypes
  import opened Strings
  import Seqs
  import RemotionTimeline

  const MinDuration := 120.0
  const Padding := 60.0
  const DefaultClipDuration := 5.0
  const TrackHeight := 80.0
  const TextClipColor := "#FF6B6B"

  predicate HasClip(track: Track, clipId: string)
  {
    exists j :: 0 <= j < |track.clips| && track.clips[j].id == clipId
  }

  predicate AnyTrackHasClip(tracks: seq<Track>, clipId: string)
  {
    exists i :: 0 <= i < |tracks| && HasClip(tracks[i], clipId)
  }

  /** How many clips the tracks hold in all. */
  function ClipCount(tracks: seq<Track>): nat
    decreases |tracks|
  {
    if tracks == [] then 0 else ClipCount(tracks[..|tracks| - 1]) + |tracks[|tracks| - 1].clips|
  }

  // ---- addTrack / addClip / addClipFromAsset / addTextClip ----

  /** `name || 'Track N'` with N one past the current number of tracks. */
  function NewTrack(id: string, name: string, trackCount: nat, color: string): Track
  {
    Track(id, if name != "" then name else "Track " + NatToString(trackCount + 1), TrackHeight, false, false, color, [], "")
  }

  /** The asset `addClip` finds for an optional asset id (none for a missing or empty id). */
  function ResolveAsset(assets: seq<MediaAsset>, assetId: Option<string>): Option<MediaAsset>
  {
    if Truthy(assetId) then RemotionTimeline.FindAsset(assets, assetId.value) else None
  }

  /** The clip `addClip` builds: with an asset, its duration, id, URL and file stem ('Clip' when the
      stem is empty); without one, 5 seconds and the name `Clip <now>`. */
  function NewMediaClip(id: string, trackId: string, startTime: real, asset: Option<MediaAsset>,
                        color: string, now: nat): Clip
  {
    match asset
    case Some(a) =>
      var stem := FileStem(a.url);
      Clip(id, trackId, startTime, a.duration, Some(a.id), Some(a.url), 0.0, 0.0,
           if stem != "" then stem else "Clip", color, false, None, NoVisual, [])
    case None =>
      Clip(id, trackId, startTime, DefaultClipDuration, None, None, 0.0, 0.0,
           "Clip " + NatToString(now), color, false, None, NoVisual, [])
  }

  /** `Text: ` and the first 20 characters of the text, with `...` when it was longer. */
  function TextClipName(text: string): (name: string)
    ensures "Text: " <= name && |name| <= 29
    ensures |text| <= 20 ==> name == "Text: " + text
    ensures |text| > 20 ==> name == "Text: " + text[..20] + "..."
  {
    "Text: " + (if |text| <= 20 then text else text[..20]) + (if |text| > 20 then "..." else "")
  }

  /** The clip `addTextClip` builds: no media, the text as transcript. */
  function NewTextClip(id: string, trackId: string, startTime: real, text: string, duration: real): Clip
  {
    Clip(id, trackId, startTime, duration, None, None, 0.0, 0.0, TextClipName(text), TextClipColor, false,
         Some(text), NoVisual, [])
  }

  /** The new clip goes at the end of every track with the id. */
  function AppendClip(tracks: seq<Track>, trackId: string, clip: Clip): seq<Track>
  {
    seq(|tracks|, i requires 0 <= i < |tracks| =>
      if tracks[i].id == trackId then tracks[i].(clips := tracks[i].clips + [clip]) else tracks[i])
  }

  /** Appending adds the clip after the existing ones on the tracks with the id and touches nothing
      else; if no track has the id the clip is dropped. */
  lemma AppendClipMeaning(tracks: seq<Track>, trackId: string, clip: Clip)
    ensures var r := AppendClip(tracks, trackId, clip);
      |r| == |tracks| &&
      (forall i :: 0 <= i < |tracks| ==>
         r[i] == tracks[i].(clips := r[i].clips) &&
         tracks[i].clips <= r[i].clips &&
         (tracks[i].id == trackId ==> r[i].clips == tracks[i].clips + [clip]) &&
         (tracks[i].id != trackId ==> r[i] == tracks[i])) &&
      ((forall i :: 0 <= i < |tracks| ==> tracks[i].id != trackId) ==> r == tracks)
  {
  }

  /** A text clip holds its text and no media, so the renderer treats it as a text clip. */
  lemma NewTextClipIsText(id: string, trackId: string, startTime: real, text: string, duration: real)
    requires text != ""
    ensures RemotionTimeline.IsTextClip(NewTextClip(id, trackId, startTime, text, duration))
    ensures NewTextClip(id, trackId, startTime, text, duration).transcript == Some(text)
  {
  }

  /** With an asset, the clip plays the asset from the beginning for its whole length. */
  lemma NewMediaClipFromAsset(id: string, trackId: string, startTime: real, a: MediaAsset, color: string, now: nat)
    ensures var c := NewMediaClip(id, trackId, startTime, Some(a), color, now);
      c.duration == a.duration && c.assetId == Some(a.id) && c.assetUrl == Some(a.url) &&
      c.trimStart == 0.0 && c.trimEnd == 0.0 && c.name != "" && !c.selected
  {
  }

  // ---- removeTrack / removeAsset / removeClip ----

  /** `tracks.find(t => t.id === trackId)`. */
  function FindTrack(tracks: seq<Track>, trackId: string): (r: Option<Track>)
    ensures r.None? <==> forall i :: 0 <= i < |tracks| ==> tracks[i].id != trackId
    ensures r.Some? ==> exists i :: 0 <= i < |tracks| && tracks[i] == r.value && r.value.id == trackId &&
                          forall i' :: 0 <= i' < i ==> tracks[i'].id != trackId
    decreases |tracks|
  {
    if tracks == [] then None
    else if tracks[0].id == trackId then Some(tracks[0])
    else
      var r := FindTrack(tracks[1..], trackId);
      assert forall i :: 1 <= i < |tracks| ==> tracks[i] == tracks[1..][i - 1];
      r
  }

  function RemoveTrackFrom(tracks: seq<Track>, trackId: string): seq<Track>
  {
    Seqs.Filter(tracks, (t: Track) => t.id != trackId)
  }

  /** The selection after `removeTrack`: the ids of clips on the first track with that id are
      dropped (none when there is no such track). */
  function PruneSelection(selected: seq<string>, tracks: seq<Track>, trackId: string): seq<string>
  {
    match FindTrack(tracks, trackId)
    case None => selected
    case Some(t) => Seqs.Filter(selected, (id: string) => !HasClip(t, id))
  }

  /** No track with the id remains and every other track stays, in order; no selected id belongs to
      a clip of the removed (first) track, and every other selected id stays. */
  lemma RemoveTrackMeaning(tracks: seq<Track>, selected: seq<string>, trackId: string)
    ensures forall t :: t in RemoveTrackFrom(tracks, trackId) ==> t.id != trackId && t in tracks
    ensures forall i :: 0 <= i < |tracks| && tracks[i].id != trackId ==> tracks[i] in RemoveTrackFrom(tracks, trackId)
    ensures (forall i :: 0 <= i < |tracks| ==> tracks[i].id != trackId) ==> RemoveTrackFrom(tracks, trackId) == tracks
    ensures forall s :: s in PruneSelection(selected, tracks, trackId) ==> s in selected
    ensures FindTrack(tracks, trackId).Some? ==>
              forall s :: s in PruneSelection(selected, tracks, trackId) <==>
                s in selected && !HasClip(FindTrack(tracks, trackId).value, s)
  {
    var r := RemoveTrackFrom(tracks, trackId);
    forall t | t in r ensures t.id != trackId && t in tracks {
      var k :| 0 <= k < |r| && r[k] == t;
    }
    if forall i :: 0 <= i < |tracks| ==> tracks[i].id != trackId {
      Seqs.FilterKeepsAll(tracks, (t: Track) => t.id != trackId);
    }
    match FindTrack(tracks, trackId) {
      case None =>
      case Some(t) =>
        var p := PruneSelection(selected, tracks, trackId);
        forall s ensures s in p <==> s in selected && !HasClip(t, s) {
          if s in p {
            var k :| 0 <= k < |p| && p[k] == s;
          }
          if s in selected && !HasClip(t, s) {
            var k :| 0 <= k < |selected| && selected[k] == s;
          }
        }
    }
  }

  function RemoveAssetFrom(assets: seq<MediaAsset>, assetId: string): seq<MediaAsset>
  {
    Seqs.Filter(assets, (a: MediaAsset) => a.id != assetId)
  }

  /** `removeAsset`'s tracks: every clip that references the asset is dropped. */
  function RemoveAssetClips(tracks: seq<Track>, assetId: string): seq<Track>
  {
    seq(|tracks|, i requires 0 <= i < |tracks| =>
      tracks[i].(clips := Seqs.Filter(tracks[i].clips, (c: Clip) => c.assetId != Some(assetId))))
  }

  /** The asset and every clip referencing it are gone; clips referencing anything else stay. */
  lemma RemoveAssetMeaning(assets: seq<MediaAsset>, tracks: seq<Track>, assetId: string)
    ensures forall a :: a in RemoveAssetFrom(assets, assetId) ==> a.id != assetId && a in assets
    ensures forall k :: 0 <= k < |assets| && assets[k].id != assetId ==> assets[k] in RemoveAssetFrom(assets, assetId)
    ensures var r := RemoveAssetClips(tracks, assetId);
      |r| == |tracks| &&
      forall i :: 0 <= i < |tracks| ==>
        r[i] == tracks[i].(clips := r[i].clips) &&
        (forall c :: c in r[i].clips ==> c in tracks[i].clips && c.assetId != Some(assetId)) &&
        (forall j :: 0 <= j < |tracks[i].clips| && tracks[i].clips[j].assetId != Some(assetId) ==>
           tracks[i].clips[j] in r[i].clips)
  {
    var ra := RemoveAssetFrom(assets, assetId);
    forall a | a in ra ensures a.id != assetId && a in assets {
      var k :| 0 <= k < |ra| && ra[k] == a;
    }
    var r := RemoveAssetClips(tracks, assetId);
    forall i, c | 0 <= i < |tracks| && c in r[i].clips
      ensures c in tracks[i].clips && c.assetId != Some(assetId)
    {
      var k :| 0 <= k < |r[i].clips| && r[i].clips[k] == c;
    }
  }

  function WithoutClip(track: Track, clipId: string): Track
  {
    track.(clips := Seqs.Filter(track.clips, (c: Clip) => c.id != clipId))
  }

  /** `removeClip`'s tracks. */
  function RemoveClipFrom(tracks: seq<Track>, clipId: string): seq<Track>
  {
    seq(|tracks|, i requires 0 <= i < |tracks| => WithoutClip(tracks[i], clipId))
  }

  function Deselect(selected: seq<string>, clipId: string): seq<string>
  {
    Seqs.Filter(selected, (id: string) => id != clipId)
  }

  lemma WithoutClipMeaning(track: Track, clipId: string)
    ensures var r := WithoutClip(track, clipId);
      r == track.(clips := r.clips) && !HasClip(r, clipId) &&
      (forall c :: c in r.clips ==> c in track.clips) &&
      (forall j :: 0 <= j < |track.clips| && track.clips[j].id != clipId ==> track.clips[j] in r.clips) &&
      (!HasClip(track, clipId) ==> r == track)
  {
    var r := WithoutClip(track, clipId);
    forall c | c in r.clips ensures c in track.clips { var k :| 0 <= k < |r.clips| && r.clips[k] == c; }
    if !HasClip(track, clipId) {
      Seqs.FilterKeepsAll(track.clips, (c: Clip) => c.id != clipId);
    }
  }

  /** No clip with the id is left on any track, every other clip stays where it was, in order, and
      the id leaves the selection while the other selected ids stay. */
  lemma RemoveClipMeaning(tracks: seq<Track>, selected: seq<string>, clipId: string)
    ensures var r := RemoveClipFrom(tracks, clipId);
      |r| == |tracks| && !AnyTrackHasClip(r, clipId) &&
      forall i :: 0 <= i < |tracks| ==> r[i] == WithoutClip(tracks[i], clipId)
    ensures clipId !in Deselect(selected, clipId)
    ensures forall s :: s in Deselect(selected, clipId) <==> s in selected && s != clipId
  {
    var r := RemoveClipFrom(tracks, clipId);
    forall i | 0 <= i < |tracks| ensures !HasClip(r[i], clipId) {
      WithoutClipMeaning(tracks[i], clipId);
    }
    var d := Deselect(selected, clipId);
    forall s ensures s in d <==> s in selected && s != clipId {
      if s in d { var k :| 0 <= k < |d| && d[k] == s; }
    }
  }

  // ---- moveClip ----

  /** `track.clips.find(c => c.id === clipId)`. */
  function FindClip(clips: seq<Clip>, clipId: string): (r: Option<Clip>)
    ensures r.None? <==> forall j :: 0 <= j < |clips| ==> clips[j].id != clipId
    ensures r.Some? ==> r.value in clips && r.value.id == clipId
    ensures r.Some? ==> exists j :: 0 <= j < |clips| && clips[j] == r.value &&
                                    forall j' :: 0 <= j' < j ==> clips[j'].id != clipId
    decreases |clips|
  {
    if clips == [] then None
    else if clips[0].id == clipId then Some(clips[0])
    else
      var r := FindClip(clips[1..], clipId);
      assert forall j :: 1 <= j < |clips| ==> clips[j] == clips[1..][j - 1];
      if r.Some? then
        var j :| 0 <= j < |clips[1..]| && clips[1..][j] == r.value &&
                 forall j' :: 0 <= j' < j ==> clips[1..][j'].id != clipId;
        assert clips[j + 1] == r.value && forall j' :: 0 <= j' < j + 1 ==> clips[j'].id != clipId;
        r
      else r
  }

  /** The clip `moveClip`'s `map` leaves in `clipToMove`: every track holding the id overwrites it,
      so it is the first such clip of the last track that holds one. */
  function LastFound(tracks: seq<Track>, clipId: string): Option<Clip>
    decreases |tracks|
  {
    if tracks == [] then None
    else match FindClip(tracks[|tracks| - 1].clips, clipId)
      case Some(c) => Some(c)
      case None => LastFound(tracks[..|tracks| - 1], clipId)
  }

  /** Nothing is found exactly when no track holds the id. */
  lemma {:induction false} LastFoundNone(tracks: seq<Track>, clipId: string)
    ensures LastFound(tracks, clipId).None? <==> !AnyTrackHasClip(tracks, clipId)
    decreases |tracks|
  {
    if tracks != [] {
      var n := |tracks| - 1;
      var front := tracks[..n];
      LastFoundNone(front, clipId);
      match FindClip(tracks[n].clips, clipId) {
        case Some(c) =>
          var j :| 0 <= j < |tracks[n].clips| && tracks[n].clips[j] == c;
          assert HasClip(tracks[n], clipId);
        case None =>
          assert !HasClip(tracks[n], clipId);
          if AnyTrackHasClip(tracks, clipId) {
            var i :| 0 <= i < |tracks| && HasClip(tracks[i], clipId);
            assert front[i] == tracks[i];
          }
          if AnyTrackHasClip(front, clipId) {
            var i :| 0 <= i < |front| && HasClip(front[i], clipId);
            assert front[i] == tracks[i];
          }
      }
    }
  }

  /** A found clip is the first clip with the id on a track after which no track holds it. */
  lemma {:induction false} LastFoundWhere(tracks: seq<Track>, clipId: string)
    requires LastFound(tracks, clipId).Some?
    ensures exists i :: 0 <= i < |tracks| && FindClip(tracks[i].clips, clipId) == LastFound(tracks, clipId) &&
              (forall i' :: i < i' < |tracks| ==> !HasClip(tracks[i'], clipId))
    decreases |tracks|
  {
    var n := |tracks| - 1;
    var front := tracks[..n];
    var here := FindClip(tracks[n].clips, clipId);
    assert LastFound(tracks, clipId) == if here.Some? then here else LastFound(front, clipId);
    if here.Some? {
      assert FindClip(tracks[n].clips, clipId) == LastFound(tracks, clipId);
    } else {
      assert !HasClip(tracks[n], clipId);
      LastFoundWhere(front, clipId);
      var i :| 0 <= i < |front| && FindClip(front[i].clips, clipId) == LastFound(front, clipId) &&
               (forall i' :: i < i' < |front| ==> !HasClip(front[i'], clipId));
      assert front[i] == tracks[i];
      forall i' | i < i' < |tracks| ensures !HasClip(tracks[i'], clipId) {
        if i' < n {
          assert !HasClip(front[i'], clipId);
          assert front[i'] == tracks[i'];
        } else {
          assert i' == n;
        }
      }
      assert FindClip(tracks[i].clips, clipId) == LastFound(tracks, clipId);
    }
  }

  function Relocated(found: Option<Clip>, newTrackId: string, newStartTime: real): Option<Clip>
  {
    match found
    case None => None
    case Some(c) => Some(c.(trackId := newTrackId, startTime := newStartTime))
  }

  /** `moveClip`'s tracks: unchanged for an unknown id; otherwise every clip with the id is removed
      and the relocated one appended to the tracks with the target id. */
  function MoveClipIn(tracks: seq<Track>, clipId: string, newTrackId: string, newStartTime: real): seq<Track>
  {
    match Relocated(LastFound(tracks, clipId), newTrackId, newStartTime)
    case None => tracks
    case Some(moved) => AppendClip(RemoveClipFrom(tracks, clipId), newTrackId, moved)
  }

  /** One more track: a copy on it supersedes any found before. */
  lemma RelocatedStep(tracks: seq<Track>, i: nat, clipId: string, newTrackId: string, newStartTime: real)
    requires i < |tracks|
    ensures Relocated(LastFound(tracks[..i + 1], clipId), newTrackId, newStartTime) ==
            match FindClip(tracks[i].clips, clipId)
            case Some(c) => Some(c.(trackId := newTrackId, startTime := newStartTime))
            case None => Relocated(LastFound(tracks[..i], clipId), newTrackId, newStartTime)
  {
    assert tracks[..i + 1][..i] == tracks[..i];
  }

  lemma RemoveClipStep(tracks: seq<Track>, i: nat, clipId: string)
    requires i < |tracks|
    ensures RemoveClipFrom(tracks[..i + 1], clipId) == RemoveClipFrom(tracks[..i], clipId) + [WithoutClip(tracks[i], clipId)]
  {
    var a := RemoveClipFrom(tracks[..i + 1], clipId);
    var b := RemoveClipFrom(tracks[..i], clipId) + [WithoutClip(tracks[i], clipId)];
    assert |a| == |b|;
    forall k | 0 <= k < |a| ensures a[k] == b[k] {
      if k < i {
        assert tracks[..i + 1][k] == tracks[..i][k];
      }
    }
  }

  /** The loop of `moveClip`: in one pass, drops the clip from every track and keeps the last copy
      found, relocated to the target track and start time. */
  method ExtractClip(tracks: seq<Track>, clipId: string, newTrackId: string, newStartTime: real)
    returns (tracksWithoutClip: seq<Track>, clipToMove: Option<Clip>)
    ensures tracksWithoutClip == RemoveClipFrom(tracks, clipId)
    ensures clipToMove == Relocated(LastFound(tracks, clipId), newTrackId, newStartTime)
  {
    clipToMove := None;
    tracksWithoutClip := [];
    var i := 0;
    while i < |tracks|
      invariant 0 <= i <= |tracks|
      invariant tracksWithoutClip == RemoveClipFrom(tracks[..i], clipId)
      invariant clipToMove == Relocated(LastFound(tracks[..i], clipId), newTrackId, newStartTime)
    {
      var found := FindClip(tracks[i].clips, clipId);
      RelocatedStep(tracks, i, clipId, newTrackId, newStartTime);
      RemoveClipStep(tracks, i, clipId);
      if found.Some? {
        clipToMove := Some(found.value.(trackId := newTrackId, startTime := newStartTime));
      }
      tracksWithoutClip := tracksWithoutClip + [WithoutClip(tracks[i], clipId)];
      i := i + 1;
    }
    assert tracks[..|tracks|] == tracks;
  }

  /** Moving an id no track holds changes nothing. */
  lemma MoveUnknownUnchanged(tracks: seq<Track>, clipId: string, newTrackId: string, newStartTime: real)
    requires !AnyTrackHasClip(tracks, clipId)
    ensures MoveClipIn(tracks, clipId, newTrackId, newStartTime) == tracks
  {
    LastFoundNone(tracks, clipId);
  }

  /** The moved clip carries the id, the target track id and the new start, and otherwise the
      fields of a clip that had the id. */
  lemma MovedClipOrigin(tracks: seq<Track>, clipId: string, newTrackId: string, newStartTime: real)
    requires AnyTrackHasClip(tracks, clipId)
    ensures LastFound(tracks, clipId).Some?
    ensures var moved := LastFound(tracks, clipId).value.(trackId := newTrackId, startTime := newStartTime);
      moved.id == clipId &&
      exists i, j :: 0 <= i < |tracks| && 0 <= j < |tracks[i].clips| &&
        moved == tracks[i].clips[j].(trackId := newTrackId, startTime := newStartTime)
  {
    LastFoundNone(tracks, clipId);
    LastFoundWhere(tracks, clipId);
    var found := LastFound(tracks, clipId).value;
    var i :| 0 <= i < |tracks| && FindClip(tracks[i].clips, clipId) == Some(found);
    var j :| 0 <= j < |tracks[i].clips| && tracks[i].clips[j] == found;
  }

  /** After a move each track has lost its clips with the id, and each target track has the moved
      clip once more, at the end; nothing else about a track changes. */
  lemma MoveClipMeaning(tracks: seq<Track>, clipId: string, newTrackId: string, newStartTime: real)
    requires LastFound(tracks, clipId).Some?
    ensures var r := MoveClipIn(tracks, clipId, newTrackId, newStartTime);
      var moved := LastFound(tracks, clipId).value.(trackId := newTrackId, startTime := newStartTime);
      |r| == |tracks| &&
      forall i :: 0 <= i < |tracks| ==>
        r[i].clips == WithoutClip(tracks[i], clipId).clips + (if tracks[i].id == newTrackId then [moved] else []) &&
        r[i] == tracks[i].(clips := r[i].clips)
  {
    var moved := LastFound(tracks, clipId).value.(trackId := newTrackId, startTime := newStartTime);
    AppendClipMeaning(RemoveClipFrom(tracks, clipId), newTrackId, moved);
  }

  /** Moving onto a track id that does not exist drops the clip from the timeline. */
  lemma MoveToMissingTrack(tracks: seq<Track>, clipId: string, newTrackId: string, newStartTime: real)
    requires forall i :: 0 <= i < |tracks| ==> tracks[i].id != newTrackId
    ensures !AnyTrackHasClip(MoveClipIn(tracks, clipId, newTrackId, newStartTime), clipId)
  {
    RemoveClipMeaning(tracks, [], clipId);
    if LastFound(tracks, clipId).Some? {
      var moved := LastFound(tracks, clipId).value.(trackId := newTrackId, startTime := newStartTime);
      AppendClipMeaning(RemoveClipFrom(tracks, clipId), newTrackId, moved);
    } else {
      LastFoundNone(tracks, clipId);
    }
  }

  // ---- trimClip ----

  datatype TrimSide = TrimStart | TrimEnd

  /** One clip's trim: the start side moves the start and compensates duration and source offset;
      the end side sets the end and moves the difference into `trimEnd`. */
  function TrimOne(clip: Clip, side: TrimSide, newTime: real): Clip
  {
    match side
    case TrimStart =>
      var delta := newTime - clip.startTime;
      clip.(startTime := newTime, duration := clip.duration - delta, trimStart := clip.trimStart + delta)
    case TrimEnd =>
      var newDuration := newTime - clip.startTime;
      clip.(duration := newDuration, trimEnd := clip.trimEnd + (clip.duration - newDuration))
  }

  /** `trimClip`'s tracks: every clip with the id is trimmed. */
  function TrimClips(tracks: seq<Track>, clipId: string, side: TrimSide, newTime: real): seq<Track>
  {
    seq(|tracks|, i requires 0 <= i < |tracks| =>
      tracks[i].(clips := seq(|tracks[i].clips|, j requires 0 <= j < |tracks[i].clips| =>
        if tracks[i].clips[j].id == clipId then TrimOne(tracks[i].clips[j], side, newTime) else tracks[i].clips[j])))
  }

  /** A start trim keeps the clip's end and the time at which the source would start
      (`startTime - trimStart`); an end trim keeps the start and `duration + trimEnd`, and puts the
      end at `newTime`. Nothing else about the clip changes. */
  lemma TrimConservation(clip: Clip, newTime: real)
    ensures var c := TrimOne(clip, TrimStart, newTime);
      c.startTime == newTime && c.startTime + c.duration == clip.startTime + clip.duration &&
      c.startTime - c.trimStart == clip.startTime - clip.trimStart &&
      c == clip.(startTime := c.startTime, duration := c.duration, trimStart := c.trimStart)
    ensures var c := TrimOne(clip, TrimEnd, newTime);
      c.startTime == clip.startTime && c.startTime + c.duration == newTime &&
      c.duration + c.trimEnd == clip.duration + clip.trimEnd &&
      c == clip.(duration := c.duration, trimEnd := c.trimEnd)
  {
  }

  /** The drag handler's guards (frontend/src/components/Timeline/Clip.tsx) keep a trimmed clip longer
      than 0.1 s, and a start trim at or after 0. */
  lemma TrimUnderDragGuard(clip: Clip, newTime: real)
    ensures newTime < clip.startTime + clip.duration - 0.1 && newTime >= 0.0 ==>
              TrimOne(clip, TrimStart, newTime).duration > 0.1 && TrimOne(clip, TrimStart, newTime).startTime >= 0.0
    ensures newTime > clip.startTime + 0.1 ==> TrimOne(clip, TrimEnd, newTime).duration > 0.1
  {
  }

  /** Only clips with the id are trimmed; everything else stays. */
  lemma TrimClipsMeaning(tracks: seq<Track>, clipId: string, side: TrimSide, newTime: real)
    ensures var r := TrimClips(tracks, clipId, side, newTime);
      |r| == |tracks| &&
      forall i :: 0 <= i < |tracks| ==>
        r[i] == tracks[i].(clips := r[i].clips) && |r[i].clips| == |tracks[i].clips| &&
        forall j :: 0 <= j < |tracks[i].clips| ==>
          (tracks[i].clips[j].id != clipId ==> r[i].clips[j] == tracks[i].clips[j]) &&
          (tracks[i].clips[j].id == clipId ==> r[i].clips[j] == TrimOne(tracks[i].clips[j], side, newTime))
    ensures !AnyTrackHasClip(tracks, clipId) ==> TrimClips(tracks, clipId, side, newTime) == tracks
  {
    var r := TrimClips(tracks, clipId, side, newTime);
    if !AnyTrackHasClip(tracks, clipId) {
      forall i | 0 <= i < |tracks| ensures r[i] == tracks[i] {
        assert r[i].clips == tracks[i].clips;
      }
    }
  }

  // ---- splitClip ----

  /** `findIndex`: the position of the first clip with the id. */
  function FindIndex(clips: seq<Clip>, clipId: string): (r: Option<nat>)
    ensures r.None? <==> forall j :: 0 <= j < |clips| ==> clips[j].id != clipId
    ensures r.Some? ==> r.value < |clips| && clips[r.value].id == clipId &&
                        forall j :: 0 <= j < r.value ==> clips[j].id != clipId
    decreases |clips|
  {
    if clips == [] then None
    else if clips[0].id == clipId then Some(0)
    else
      var r := FindIndex(clips[1..], clipId);
      assert forall j :: 1 <= j < |clips| ==> clips[j] == clips[1..][j - 1];
      if r.Some? then Some(r.value + 1) else None
  }

  /** The split happens only strictly inside the clip. */
  predicate StrictlyInside(clip: Clip, splitTime: real)
  {
    clip.startTime < splitTime < clip.startTime + clip.duration
  }

  function FirstPart(clip: Clip, splitTime: real): Clip
  {
    clip.(duration := splitTime - clip.startTime)
  }

  function SecondPart(clip: Clip, splitTime: real, newId: string): Clip
  {
    var splitPoint := splitTime - clip.startTime;
    clip.(id := newId, startTime := splitTime, duration := clip.duration - splitPoint,
          trimStart := clip.trimStart + splitPoint)
  }

  /** One track of `splitClip`: the first clip with the id, when the time falls strictly inside it,
      is replaced in place by its two parts. */
  function SplitTrack(track: Track, clipId: string, splitTime: real, newId: string): Track
  {
    match FindIndex(track.clips, clipId)
    case None => track
    case Some(k) =>
      var clip := track.clips[k];
      if !StrictlyInside(clip, splitTime) then track
      else track.(clips := track.clips[..k] + [FirstPart(clip, splitTime), SecondPart(clip, splitTime, newId)] + track.clips[k + 1..])
  }

  /** `splitClip`'s tracks; `newIdFor(i)` is the id generated for the second part on track `i`. */
  function SplitTracks(tracks: seq<Track>, clipId: string, splitTime: real, newIdFor: nat -> string): seq<Track>
  {
    seq(|tracks|, i requires 0 <= i < |tracks| => SplitTrack(tracks[i], clipId, splitTime, newIdFor(i)))
  }

  /** A split strictly inside the clip puts the two parts where the clip was: the first keeps the id
      and start, the second starts at the split time with the remainder and a source offset advanced
      by the split point; the durations add up to the original and the parts abut. Every other key
      of the clip (name, colour, asset, trim end, selection, transcript, visual keys, effects) is
      copied into both parts. */
  lemma SplitInside(track: Track, clipId: string, splitTime: real, newId: string)
    requires FindIndex(track.clips, clipId).Some?
    requires StrictlyInside(track.clips[FindIndex(track.clips, clipId).value], splitTime)
    ensures var k := FindIndex(track.clips, clipId).value;
      var clip := track.clips[k];
      var r := SplitTrack(track, clipId, splitTime, newId);
      var a := r.clips[k];
      var b := r.clips[k + 1];
      |r.clips| == |track.clips| + 1 &&
      r.clips[..k] == track.clips[..k] && r.clips[k + 2..] == track.clips[k + 1..] &&
      a.id == clipId && a.startTime == clip.startTime && a.duration == splitTime - clip.startTime &&
      b.id == newId && b.startTime == splitTime &&
      a.duration + b.duration == clip.duration && a.startTime + a.duration == b.startTime &&
      b.startTime + b.duration == clip.startTime + clip.duration &&
      b.trimStart == clip.trimStart + (splitTime - clip.startTime) &&
      a.duration > 0.0 && b.duration > 0.0 &&
      a == clip.(duration := splitTime - clip.startTime) &&
      b == clip.(id := newId, startTime := splitTime, duration := clip.duration - (splitTime - clip.startTime),
                 trimStart := clip.trimStart + (splitTime - clip.startTime)) &&
      r == track.(clips := r.clips)
  {
    var k := FindIndex(track.clips, clipId).value;
    var clip := track.clips[k];
    var r := SplitTrack(track, clipId, splitTime, newId);
    assert r.clips == track.clips[..k] + [FirstPart(clip, splitTime), SecondPart(clip, splitTime, newId)] + track.clips[k + 1..];
  }

  /** A time at or outside the clip's ends, or an id the track does not hold, leaves the track as it is. */
  lemma SplitOutsideUnchanged(track: Track, clipId: string, splitTime: real, newId: string)
    requires FindIndex(track.clips, clipId).None? ||
             !StrictlyInside(track.clips[FindIndex(track.clips, clipId).value], splitTime)
    ensures SplitTrack(track, clipId, splitTime, newId) == track
  {
  }

  /** Two abutting parts in place of a clip leave the running maximum as the clip would. */
  lemma ClipsMaxEndPair(a: Clip, b: Clip, clip: Clip, post: seq<Clip>, acc: real)
    requires ClipEnd(a) <= ClipEnd(b) && ClipEnd(b) == ClipEnd(clip)
    ensures ClipsMaxEnd([a, b] + post, acc) == ClipsMaxEnd([clip] + post, acc)
  {
    assert ([a, b] + post)[1..] == [b] + post;
    assert ([b] + post)[1..] == post;
    assert ([clip] + post)[1..] == post;
    assert Max(Max(acc, ClipEnd(a)), ClipEnd(b)) == Max(acc, ClipEnd(clip));
  }

  /** Splitting never changes the clip extent of a track: the running maximum of its clip ends,
      from any starting value, stays the same. */
  lemma SplitKeepsTrackEnd(track: Track, clipId: string, splitTime: real, newId: string, acc: real)
    ensures ClipsMaxEnd(SplitTrack(track, clipId, splitTime, newId).clips, acc) == ClipsMaxEnd(track.clips, acc)
  {
    var found := FindIndex(track.clips, clipId);
    if found.Some? && StrictlyInside(track.clips[found.value], splitTime) {
      var k := found.value;
      var clip := track.clips[k];
      var a := FirstPart(clip, splitTime);
      var b := SecondPart(clip, splitTime, newId);
      var pre := track.clips[..k];
      var post := track.clips[k + 1..];
      var split := SplitTrack(track, clipId, splitTime, newId).clips;
      assert split == pre + ([a, b] + post);
      assert track.clips == pre + ([clip] + post);
      ClipsMaxEndAppend(pre, [a, b] + post, acc);
      ClipsMaxEndAppend(pre, [clip] + post, acc);
      ClipsMaxEndPair(a, b, clip, post, ClipsMaxEnd(pre, acc));
    }
  }

  /** Tracks whose clips give the same running maxima give the same overall maximum. */
  lemma {:induction false} TracksMaxEndByTrack(a: seq<Track>, b: seq<Track>, acc: real)
    requires |a| == |b|
    requires forall i, x :: 0 <= i < |a| ==> ClipsMaxEnd(a[i].clips, x) == ClipsMaxEnd(b[i].clips, x)
    ensures TracksMaxEnd(a, acc) == TracksMaxEnd(b, acc)
    decreases |a|
  {
    if a != [] {
      assert forall i :: 1 <= i < |a| ==> a[1..][i - 1] == a[i] && b[1..][i - 1] == b[i];
      TracksMaxEndByTrack(a[1..], b[1..], ClipsMaxEnd(a[0].clips, acc));
    }
  }

  /** `splitClip` does not re-derive the duration, and it never needs to: splitting on every track
      leaves the furthest clip end, and so the padded duration, unchanged. */
  lemma SplitKeepsDuration(tracks: seq<Track>, clipId: string, splitTime: real, newIdFor: nat -> string)
    ensures MaxEndTime(SplitTracks(tracks, clipId, splitTime, newIdFor)) == MaxEndTime(tracks)
    ensures PaddedDuration(SplitTracks(tracks, clipId, splitTime, newIdFor)) == PaddedDuration(tracks)
  {
    var split := SplitTracks(tracks, clipId, splitTime, newIdFor);
    forall i, x | 0 <= i < |tracks|
      ensures ClipsMaxEnd(split[i].clips, x) == ClipsMaxEnd(tracks[i].clips, x)
    {
      SplitKeepsTrackEnd(tracks[i], clipId, splitTime, newIdFor(i), x);
    }
    TracksMaxEndByTrack(split, tracks, 0.0);
  }

  // ---- selectClip / deselectAllClips ----

  /** `selectClip`'s selection: the id alone, or with multi-select the id toggled. */
  function SelectIds(selected: seq<string>, clipId: string, multiSelect: bool): seq<string>
  {
    if !multiSelect then [clipId]
    else if clipId in selected then Seqs.Filter(selected, (id: string) => id != clipId)
    else selected + [clipId]
  }

  /** `selectClip`'s tracks: the clips' `selected` flags. */
  function MarkSelected(tracks: seq<Track>, clipId: string, multiSelect: bool): seq<Track>
  {
    seq(|tracks|, i requires 0 <= i < |tracks| =>
      tracks[i].(clips := seq(|tracks[i].clips|, j requires 0 <= j < |tracks[i].clips| =>
        var c := tracks[i].clips[j];
        c.(selected := if multiSelect then (if c.id == clipId then !c.selected else c.selected) else c.id == clipId))))
  }

  /** Without multi-select the clip becomes the whole selection and the only flagged clip; with it,
      the clip's membership and flag are toggled and every other id and flag stays. */
  lemma SelectMeaning(selected: seq<string>, tracks: seq<Track>, clipId: string, multiSelect: bool)
    ensures !multiSelect ==> SelectIds(selected, clipId, multiSelect) == [clipId]
    ensures multiSelect ==> forall s :: s in SelectIds(selected, clipId, multiSelect) <==>
              (if s == clipId then clipId !in selected else s in selected)
    ensures var r := MarkSelected(tracks, clipId, multiSelect);
      |r| == |tracks| &&
      forall i :: 0 <= i < |tracks| ==>
        r[i] == tracks[i].(clips := r[i].clips) && |r[i].clips| == |tracks[i].clips| &&
        forall j :: 0 <= j < |tracks[i].clips| ==>
          var c := tracks[i].clips[j];
          r[i].clips[j] == c.(selected := r[i].clips[j].selected) &&
          (!multiSelect ==> (r[i].clips[j].selected <==> c.id == clipId)) &&
          (multiSelect ==> r[i].clips[j].selected == (if c.id == clipId then !c.selected else c.selected))
  {
    if multiSelect && clipId in selected {
      var d := SelectIds(selected, clipId, multiSelect);
      forall s ensures s in d <==> (if s == clipId then clipId !in selected else s in selected) {
        if s in d { var k :| 0 <= k < |d| && d[k] == s; }
      }
    }
  }

  /** Every action that changes the selection keeps it free of duplicates. */
  lemma SelectionStaysDistinct(selected: seq<string>, tracks: seq<Track>, clipId: string, trackId: string, multiSelect: bool)
    requires Seqs.NoDuplicates(selected)
    ensures Seqs.NoDuplicates(SelectIds(selected, clipId, multiSelect))
    ensures Seqs.NoDuplicates(Deselect(selected, clipId))
    ensures Seqs.NoDuplicates(PruneSelection(selected, tracks, trackId))
  {
    Seqs.FilterNoDuplicates(selected, (id: string) => id != clipId);
    if FindTrack(tracks, trackId).Some? {
      Seqs.FilterNoDuplicates(selected, (id: string) => !HasClip(FindTrack(tracks, trackId).value, id));
    }
  }

  function DeselectAll(tracks: seq<Track>): seq<Track>
  {
    seq(|tracks|, i requires 0 <= i < |tracks| =>
      tracks[i].(clips := seq(|tracks[i].clips|, j requires 0 <= j < |tracks[i].clips| =>
        tracks[i].clips[j].(selected := false))))
  }

  /** Afterwards no clip is flagged and nothing else about any clip or track has changed. */
  lemma DeselectAllMeaning(tracks: seq<Track>)
    ensures var r := DeselectAll(tracks);
      |r| == |tracks| &&
      forall i :: 0 <= i < |tracks| ==>
        r[i] == tracks[i].(clips := r[i].clips) && |r[i].clips| == |tracks[i].clips| &&
        forall j :: 0 <= j < |tracks[i].clips| ==>
          !r[i].clips[j].selected && r[i].clips[j] == tracks[i].clips[j].(selected := false)
    ensures DeselectAll(DeselectAll(tracks)) == DeselectAll(tracks)
  {
    var r := DeselectAll(tracks);
    var r2 := DeselectAll(r);
    forall i | 0 <= i < |tracks| ensures r2[i] == r[i] {
      assert r2[i].clips == r[i].clips;
    }
  }

  // ---- setZoom ----

  function Max(a: real, b: real): real { if a >= b then a else b }

  function Min(a: real, b: real): real { if a <= b then a else b }

  /** `Math.max(0.1, Math.min(10, zoom))`. */
  function ClampZoom(zoom: real): real
  {
    Max(0.1, Min(10.0, zoom))
  }

  /** The zoom lands in [0.1, 10]; a zoom already there is kept, one outside snaps to the nearer end. */
  lemma ClampZoomMeaning(zoom: real)
    ensures 0.1 <= ClampZoom(zoom) <= 10.0
    ensures 0.1 <= zoom <= 10.0 ==> ClampZoom(zoom) == zoom
    ensures zoom < 0.1 ==> ClampZoom(zoom) == 0.1
    ensures zoom > 10.0 ==> ClampZoom(zoom) == 10.0
    ensures ClampZoom(ClampZoom(zoom)) == ClampZoom(zoom)
  {
  }

  // ---- updateTrack / updateClip ----

  /** A `Partial<Track>`: `None` marks a key the update does not carry. */
  datatype TrackUpdate = TrackUpdate(
    id: Option<string>, name: Option<string>, height: Option<real>, muted: Option<bool>,
    locked: Option<bool>, color: Option<string>, clips: Option<seq<Clip>>, kind: Option<string>)

  /** `{ ...track, ...updates }`. */
  function ApplyTrackUpdate(t: Track, u: TrackUpdate): Track
  {
    Track(u.id.GetOr(t.id), u.name.GetOr(t.name), u.height.GetOr(t.height), u.muted.GetOr(t.muted),
          u.locked.GetOr(t.locked), u.color.GetOr(t.color), u.clips.GetOr(t.clips), u.kind.GetOr(t.kind))
  }

  function UpdateTrackIn(tracks: seq<Track>, trackId: string, u: TrackUpdate): seq<Track>
  {
    seq(|tracks|, i requires 0 <= i < |tracks| => if tracks[i].id == trackId then ApplyTrackUpdate(tracks[i], u) else tracks[i])
  }

  /** A `Partial<Clip>`; the visual keys are carried one by one, `Some(None)` clearing a key. */
  datatype ClipUpdate = ClipUpdate(
    id: Option<string>, trackId: Option<string>, startTime: Option<real>, duration: Option<real>,
    assetId: Option<Option<string>>, assetUrl: Option<Option<string>>, trimStart: Option<real>, trimEnd: Option<real>,
    name: Option<string>, color: Option<string>, selected: Option<bool>, transcript: Option<Option<string>>,
    scale: Option<Option<real>>, position: Option<Option<Position>>, rotation: Option<Option<real>>,
    opacity: Option<Option<real>>, effects: Option<seq<Effect>>)

  /** `{ ...clip, ...updates }`. */
  function ApplyClipUpdate(c: Clip, u: ClipUpdate): Clip
  {
    Clip(u.id.GetOr(c.id), u.trackId.GetOr(c.trackId), u.startTime.GetOr(c.startTime), u.duration.GetOr(c.duration),
         u.assetId.GetOr(c.assetId), u.assetUrl.GetOr(c.assetUrl), u.trimStart.GetOr(c.trimStart),
         u.trimEnd.GetOr(c.trimEnd), u.name.GetOr(c.name), u.color.GetOr(c.color), u.selected.GetOr(c.selected),
         u.transcript.GetOr(c.transcript),
         Visual(u.scale.GetOr(c.visual.scale), u.position.GetOr(c.visual.position),
                u.rotation.GetOr(c.visual.rotation), u.opacity.GetOr(c.visual.opacity)),
         u.effects.GetOr(c.effects))
  }

  function UpdateClipIn(tracks: seq<Track>, clipId: string, u: ClipUpdate): seq<Track>
  {
    seq(|tracks|, i requires 0 <= i < |tracks| =>
      tracks[i].(clips := seq(|tracks[i].clips|, j requires 0 <= j < |tracks[i].clips| =>
        if tracks[i].clips[j].id == clipId then ApplyClipUpdate(tracks[i].clips[j], u) else tracks[i].clips[j])))
  }

  /** One key of a spread `{ ...before, ...update }`: the update's value when it carries the key,
      otherwise the value before. */
  predicate Merged<T(==)>(update: Option<T>, before: T, after: T)
  {
    (update.None? ==> after == before) && (update.Some? ==> after == update.value)
  }

  /** Keys the update carries take its values, the others keep the track's; only tracks with the id
      change, and applying the update again changes nothing more. */
  lemma TrackUpdateMeaning(tracks: seq<Track>, trackId: string, u: TrackUpdate)
    ensures forall t: Track :: u.name.None? ==> ApplyTrackUpdate(t, u).name == t.name
    ensures forall t: Track :: u.clips.None? ==> ApplyTrackUpdate(t, u).clips == t.clips
    ensures forall t: Track :: var r := ApplyTrackUpdate(t, u);
              Merged(u.id, t.id, r.id) && Merged(u.name, t.name, r.name) && Merged(u.height, t.height, r.height) &&
              Merged(u.muted, t.muted, r.muted) && Merged(u.locked, t.locked, r.locked) &&
              Merged(u.color, t.color, r.color) && Merged(u.clips, t.clips, r.clips) && Merged(u.kind, t.kind, r.kind)
    ensures forall t: Track :: ApplyTrackUpdate(ApplyTrackUpdate(t, u), u) == ApplyTrackUpdate(t, u)
    ensures |UpdateTrackIn(tracks, trackId, u)| == |tracks|
    ensures forall i :: 0 <= i < |tracks| && tracks[i].id == trackId ==>
              UpdateTrackIn(tracks, trackId, u)[i] == ApplyTrackUpdate(tracks[i], u)
    ensures forall i :: 0 <= i < |tracks| && tracks[i].id != trackId ==> UpdateTrackIn(tracks, trackId, u)[i] == tracks[i]
    ensures UpdateTrackIn(UpdateTrackIn(tracks, trackId, u), trackId, u) == UpdateTrackIn(tracks, trackId, u)
  {
  }

  /** Each key of a clip update, the visual keys included, takes the update's value when present and
      keeps the clip's otherwise; applying it again changes nothing more. */
  lemma ApplyClipUpdateKeys(c: Clip, u: ClipUpdate)
    ensures Merged(u.id, c.id, ApplyClipUpdate(c, u).id)
    ensures Merged(u.trackId, c.trackId, ApplyClipUpdate(c, u).trackId)
    ensures Merged(u.startTime, c.startTime, ApplyClipUpdate(c, u).startTime)
    ensures Merged(u.duration, c.duration, ApplyClipUpdate(c, u).duration)
    ensures Merged(u.assetId, c.assetId, ApplyClipUpdate(c, u).assetId)
    ensures Merged(u.assetUrl, c.assetUrl, ApplyClipUpdate(c, u).assetUrl)
    ensures Merged(u.trimStart, c.trimStart, ApplyClipUpdate(c, u).trimStart)
    ensures Merged(u.trimEnd, c.trimEnd, ApplyClipUpdate(c, u).trimEnd)
    ensures Merged(u.name, c.name, ApplyClipUpdate(c, u).name)
    ensures Merged(u.color, c.color, ApplyClipUpdate(c, u).color)
    ensures Merged(u.selected, c.selected, ApplyClipUpdate(c, u).selected)
    ensures Merged(u.transcript, c.transcript, ApplyClipUpdate(c, u).transcript)
    ensures Merged(u.scale, c.visual.scale, ApplyClipUpdate(c, u).visual.scale)
    ensures Merged(u.position, c.visual.position, ApplyClipUpdate(c, u).visual.position)
    ensures Merged(u.rotation, c.visual.rotation, ApplyClipUpdate(c, u).visual.rotation)
    ensures Merged(u.opacity, c.visual.opacity, ApplyClipUpdate(c, u).visual.opacity)
    ensures Merged(u.effects, c.effects, ApplyClipUpdate(c, u).effects)
    ensures ApplyClipUpdate(ApplyClipUpdate(c, u), u) == ApplyClipUpdate(c, u)
  {
    ClipUpdateTimingKeys(c, u);
    ClipUpdateContentKeys(c, u);
    ClipUpdateVisualKeys(c, u);
  }

  lemma ClipUpdateTimingKeys(c: Clip, u: ClipUpdate)
    ensures Merged(u.id, c.id, ApplyClipUpdate(c, u).id)
    ensures Merged(u.trackId, c.trackId, ApplyClipUpdate(c, u).trackId)
    ensures Merged(u.startTime, c.startTime, ApplyClipUpdate(c, u).startTime)
    ensures Merged(u.duration, c.duration, ApplyClipUpdate(c, u).duration)
    ensures Merged(u.trimStart, c.trimStart, ApplyClipUpdate(c, u).trimStart)
    ensures Merged(u.trimEnd, c.trimEnd, ApplyClipUpdate(c, u).trimEnd)
  {
  }

  lemma ClipUpdateContentKeys(c: Clip, u: ClipUpdate)
    ensures Merged(u.assetId, c.assetId, ApplyClipUpdate(c, u).assetId)
    ensures Merged(u.assetUrl, c.assetUrl, ApplyClipUpdate(c, u).assetUrl)
    ensures Merged(u.name, c.name, ApplyClipUpdate(c, u).name)
    ensures Merged(u.color, c.color, ApplyClipUpdate(c, u).color)
    ensures Merged(u.selected, c.selected, ApplyClipUpdate(c, u).selected)
    ensures Merged(u.transcript, c.transcript, ApplyClipUpdate(c, u).transcript)
    ensures Merged(u.effects, c.effects, ApplyClipUpdate(c, u).effects)
  {
  }

  lemma ClipUpdateVisualKeys(c: Clip, u: ClipUpdate)
    ensures Merged(u.scale, c.visual.scale, ApplyClipUpdate(c, u).visual.scale)
    ensures Merged(u.position, c.visual.position, ApplyClipUpdate(c, u).visual.position)
    ensures Merged(u.rotation, c.visual.rotation, ApplyClipUpdate(c, u).visual.rotation)
    ensures Merged(u.opacity, c.visual.opacity, ApplyClipUpdate(c, u).visual.opacity)
  {
  }

  /** Only clips with the id change, exactly by the update's keys; track keys and clip order are kept;
      applying it again changes nothing more. */
  lemma ClipUpdateMeaning(tracks: seq<Track>, clipId: string, u: ClipUpdate)
    ensures forall c: Clip :: ApplyClipUpdate(ApplyClipUpdate(c, u), u) == ApplyClipUpdate(c, u)
    ensures forall c: Clip :: u.startTime.None? && u.duration.None? ==>
              ApplyClipUpdate(c, u).startTime == c.startTime && ApplyClipUpdate(c, u).duration == c.duration
    ensures |UpdateClipIn(tracks, clipId, u)| == |tracks|
    ensures forall i :: 0 <= i < |tracks| ==>
              UpdateClipIn(tracks, clipId, u)[i] == tracks[i].(clips := UpdateClipIn(tracks, clipId, u)[i].clips) &&
              |UpdateClipIn(tracks, clipId, u)[i].clips| == |tracks[i].clips|
    ensures forall i, j :: 0 <= i < |tracks| && 0 <= j < |tracks[i].clips| && tracks[i].clips[j].id == clipId ==>
              UpdateClipIn(tracks, clipId, u)[i].clips[j] == ApplyClipUpdate(tracks[i].clips[j], u)
    ensures forall i, j :: 0 <= i < |tracks| && 0 <= j < |tracks[i].clips| && tracks[i].clips[j].id != clipId ==>
              UpdateClipIn(tracks, clipId, u)[i].clips[j] == tracks[i].clips[j]
    ensures UpdateClipIn(UpdateClipIn(tracks, clipId, u), clipId, u) == UpdateClipIn(tracks, clipId, u)
  {
    var r := UpdateClipIn(tracks, clipId, u);
    var r2 := UpdateClipIn(r, clipId, u);
    forall i | 0 <= i < |tracks| ensures r2[i] == r[i] {
      assert r2[i].clips == r[i].clips;
    }
  }

  // ---- updateTimelineDuration ----

  function ClipEnd(clip: Clip): real { clip.startTime + clip.duration }

  /** `Math.max(maxEndTime, clipEnd)` over a track's clips, starting from `acc`. */
  function ClipsMaxEnd(clips: seq<Clip>, acc: real): real
    decreases |clips|
  {
    if clips == [] then acc else ClipsMaxEnd(clips[1..], Max(acc, ClipEnd(clips[0])))
  }

  function TracksMaxEnd(tracks: seq<Track>, acc: real): real
    decreases |tracks|
  {
    if tracks == [] then acc else TracksMaxEnd(tracks[1..], ClipsMaxEnd(tracks[0].clips, acc))
  }

  /** The furthest clip end, 0 for no clips. */
  function MaxEndTime(tracks: seq<Track>): real
  {
    TracksMaxEnd(tracks, 0.0)
  }

  /** `Math.max(120, maxEndTime + 60)`. */
  function PaddedDuration(tracks: seq<Track>): real
  {
    Max(MinDuration, MaxEndTime(tracks) + Padding)
  }

  lemma {:induction false} ClipsMaxEndAppend(a: seq<Clip>, b: seq<Clip>, acc: real)
    ensures ClipsMaxEnd(a + b, acc) == ClipsMaxEnd(b, ClipsMaxEnd(a, acc))
    decreases |a|
  {
    if a == [] {
      assert a + b == b;
    } else {
      assert (a + b)[1..] == a[1..] + b;
      ClipsMaxEndAppend(a[1..], b, Max(acc, ClipEnd(a[0])));
    }
  }

  predicate SomeClipEndsAt(tracks: seq<Track>, end: real)
  {
    exists i, j :: 0 <= i < |tracks| && 0 <= j < |tracks[i].clips| && ClipEnd(tracks[i].clips[j]) == end
  }

  lemma {:induction false} ClipsMaxEndBounds(clips: seq<Clip>, acc: real)
    ensures ClipsMaxEnd(clips, acc) >= acc
    ensures forall j :: 0 <= j < |clips| ==> ClipEnd(clips[j]) <= ClipsMaxEnd(clips, acc)
    ensures ClipsMaxEnd(clips, acc) == acc || exists j :: 0 <= j < |clips| && ClipEnd(clips[j]) == ClipsMaxEnd(clips, acc)
    decreases |clips|
  {
    if clips != [] {
      var acc' := Max(acc, ClipEnd(clips[0]));
      ClipsMaxEndBounds(clips[1..], acc');
      assert forall j :: 1 <= j < |clips| ==> clips[j] == clips[1..][j - 1];
      var m := ClipsMaxEnd(clips, acc);
      if m != acc && m != acc' {
        var j :| 0 <= j < |clips[1..]| && ClipEnd(clips[1..][j]) == m;
        assert ClipEnd(clips[j + 1]) == m;
      }
    }
  }

  lemma {:induction false} TracksMaxEndBounds(tracks: seq<Track>, acc: real)
    ensures TracksMaxEnd(tracks, acc) >= acc
    ensures forall i, j :: 0 <= i < |tracks| && 0 <= j < |tracks[i].clips| ==> ClipEnd(tracks[i].clips[j]) <= TracksMaxEnd(tracks, acc)
    ensures TracksMaxEnd(tracks, acc) == acc || SomeClipEndsAt(tracks, TracksMaxEnd(tracks, acc))
    decreases |tracks|
  {
    if tracks != [] {
      var acc' := ClipsMaxEnd(tracks[0].clips, acc);
      ClipsMaxEndBounds(tracks[0].clips, acc);
      TracksMaxEndBounds(tracks[1..], acc');
      assert forall i :: 1 <= i < |tracks| ==> tracks[i] == tracks[1..][i - 1];
      var m := TracksMaxEnd(tracks, acc);
      if m != acc {
        if m == acc' {
          var j :| 0 <= j < |tracks[0].clips| && ClipEnd(tracks[0].clips[j]) == m;
        } else {
          var i, j :| 0 <= i < |tracks[1..]| && 0 <= j < |tracks[1..][i].clips| && ClipEnd(tracks[1..][i].clips[j]) == m;
          assert ClipEnd(tracks[i + 1].clips[j]) == m;
        }
      }
    }
  }

  /** The padded duration is at least 120 and at least 60 beyond every clip end, and it is either
      120 or exactly 60 beyond the furthest end. */
  lemma PaddedDurationRule(tracks: seq<Track>)
    ensures MaxEndTime(tracks) >= 0.0
    ensures PaddedDuration(tracks) >= MinDuration
    ensures forall i, j :: 0 <= i < |tracks| && 0 <= j < |tracks[i].clips| ==>
              ClipEnd(tracks[i].clips[j]) + Padding <= PaddedDuration(tracks)
    ensures PaddedDuration(tracks) == MinDuration ||
            (PaddedDuration(tracks) == MaxEndTime(tracks) + Padding && SomeClipEndsAt(tracks, MaxEndTime(tracks)))
    ensures (forall i :: 0 <= i < |tracks| ==> tracks[i].clips == []) ==> PaddedDuration(tracks) == MinDuration
  {
    TracksMaxEndBounds(tracks, 0.0);
  }

  // ---- loadTimelineFromAI ----

  /** `aiTimeline.project?.fps || 30`. */
  function LoadFps(timeline: RawTimeline): (fps: real)
    ensures fps != 0.0
  {
    if timeline.project.Some? && timeline.project.value.fps != 0 then timeline.project.value.fps as real else 30.0
  }

  /** `ai-track-N` for the track at index N - 1. */
  function AiTrackId(index: nat): string
  {
    "ai-track-" + NatToString(index + 1)
  }

  /** `aiClip.text || <file stem of aiClip.assetUrl> || 'AI Clip'`. */
  function AiClipName(clip: RawClip): string
  {
    if Truthy(clip.text) then clip.text.value
    else if clip.assetUrl.Some? && FileStem(clip.assetUrl.value) != "" then FileStem(clip.assetUrl.value)
    else "AI Clip"
  }

  /** One converted clip; `generatedId` and `color` stand for `generateId()` and `generateColor()`. */
  function LoadClip(clip: RawClip, trackId: string, fps: real, generatedId: string, color: string): Clip
    requires fps != 0.0
  {
    Clip(if clip.id != "" then clip.id else generatedId, trackId,
         clip.startInFrames.GetOr(0) as real / fps, clip.durationInFrames.GetOr(0) as real / fps,
         None, clip.assetUrl, 0.0, 0.0, AiClipName(clip), color, false, clip.text, clip.visual, clip.effects)
  }

  /** A converted clip starts and lasts its frame counts divided by the frame rate. */
  lemma LoadClipTiming(clip: RawClip, trackId: string, fps: real, generatedId: string, color: string)
    requires fps != 0.0
    ensures var c := LoadClip(clip, trackId, fps, generatedId, color);
      c.startTime * fps == clip.startInFrames.GetOr(0) as real &&
      c.duration * fps == clip.durationInFrames.GetOr(0) as real &&
      c.trackId == trackId && (clip.id != "" ==> c.id == clip.id) && (clip.id == "" ==> c.id == generatedId)
  {
    var s := clip.startInFrames.GetOr(0) as real;
    var d := clip.durationInFrames.GetOr(0) as real;
    assert (s / fps) * fps == s;
    assert (d / fps) * fps == d;
  }

  /** One converted track; the generated ids and colours are indexed by track and clip position. */
  function LoadTrack(track: RawTrack, index: nat, fps: real, generatedId: (nat, nat) -> string,
                     trackColor: nat -> string, clipColor: (nat, nat) -> string): Track
    requires fps != 0.0
  {
    var clips := track.clips.GetOr([]);
    Track(AiTrackId(index), "AI Track " + NatToString(index + 1), TrackHeight, false, false, trackColor(index),
          seq(|clips|, j requires 0 <= j < |clips| => LoadClip(clips[j], AiTrackId(index), fps, generatedId(index, j), clipColor(index, j))),
          track.kind)
  }

  /** The tracks `loadTimelineFromAI` installs, or `None` when `timeline` is not an array. */
  function LoadTracks(timeline: RawTimeline, generatedId: (nat, nat) -> string,
                      trackColor: nat -> string, clipColor: (nat, nat) -> string): Option<seq<Track>>
  {
    match timeline.timeline
    case Tracks(raw) =>
      var fps := LoadFps(timeline);
      Some(seq(|raw|, i requires 0 <= i < |raw| => LoadTrack(raw[i], i, fps, generatedId, trackColor, clipColor)))
    case _ => None
  }

  /** Distinct track positions get distinct ids. */
  lemma AiTrackIdsDistinct(i: nat, k: nat)
    requires i != k
    ensures AiTrackId(i) != AiTrackId(k)
  {
    if AiTrackId(i) == AiTrackId(k) {
      assert NatToString(i + 1) == AiTrackId(i)[9..];
      assert NatToString(k + 1) == AiTrackId(k)[9..];
      NatToStringInjective(i + 1, k + 1);
    }
  }

  /** One editor track per input track, with distinct ids `ai-track-1`, `ai-track-2`, ..., each
      keeping its type and its number of clips. */
  lemma LoadTracksShape(timeline: RawTimeline, generatedId: (nat, nat) -> string,
                        trackColor: nat -> string, clipColor: (nat, nat) -> string)
    requires timeline.timeline.Tracks?
    ensures var r := LoadTracks(timeline, generatedId, trackColor, clipColor);
      var raw := timeline.timeline.tracks;
      r.Some? && |r.value| == |raw| &&
      (forall i, k :: 0 <= i < k < |raw| ==> r.value[i].id != r.value[k].id) &&
      forall i :: 0 <= i < |raw| ==>
        r.value[i].id == AiTrackId(i) && r.value[i].kind == raw[i].kind &&
        |r.value[i].clips| == |raw[i].clips.GetOr([])|
  {
    var raw := timeline.timeline.tracks;
    var r := LoadTracks(timeline, generatedId, trackColor, clipColor).value;
    forall i, k | 0 <= i < k < |raw| ensures r[i].id != r[k].id {
      AiTrackIdsDistinct(i, k);
    }
  }

  /** Each loaded clip keeps its place, is tagged with its track's id, has its frames turned into
      seconds at the project's frame rate (30 when absent or zero) and keeps a given id, its text
      and its effects. */
  lemma LoadTracksClips(timeline: RawTimeline, generatedId: (nat, nat) -> string,
                        trackColor: nat -> string, clipColor: (nat, nat) -> string, i: nat, j: nat)
    requires timeline.timeline.Tracks?
    requires i < |timeline.timeline.tracks| && j < |timeline.timeline.tracks[i].clips.GetOr([])|
    ensures var r := LoadTracks(timeline, generatedId, trackColor, clipColor);
      var fps := LoadFps(timeline);
      var a := timeline.timeline.tracks[i].clips.GetOr([])[j];
      r.Some? && i < |r.value| && j < |r.value[i].clips| &&
      var c := r.value[i].clips[j];
      c.trackId == AiTrackId(i) && c.startTime * fps == a.startInFrames.GetOr(0) as real &&
      c.duration * fps == a.durationInFrames.GetOr(0) as real &&
      (a.id != "" ==> c.id == a.id) && c.transcript == a.text && c.effects == a.effects && !c.selected
  {
    var a := timeline.timeline.tracks[i].clips.GetOr([])[j];
    LoadClipTiming(a, AiTrackId(i), LoadFps(timeline), generatedId(i, j), clipColor(i, j));
  }

  /** A timeline value that is not an array is ignored. */
  lemma LoadRejectsNonArrays(timeline: RawTimeline, generatedId: (nat, nat) -> string,
                             trackColor: nat -> string, clipColor: (nat, nat) -> string)
    ensures LoadTracks(timeline, generatedId, trackColor, clipColor).None? <==> !timeline.timeline.Tracks?
  {
  }
}
