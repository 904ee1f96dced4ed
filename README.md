# vibe-movie timeline model in Dafny

This project models the timeline core of vibe-movie, a browser video editor. The editor keeps
tracks of clips in a seconds-based store. It converts them to a frame-based interchange format,
which a Remotion composition renders frame by frame, applying fades and slide-ins. A server-side
assistant edits the same frame-based timelines with helper functions.

The model covers:

- the store's state and every action on it, as a class (`EditorStore.TimelineStore`) over pure
  per-track transitions (`EditorOps`);
- the frame-based helpers: conversion, lookups, fresh track ids, fades, the structural validator
  and the text-edit operations (`TimelineHelpers`, `TimelineValidation`, `TimelineOperations`);
- the renderer's timeline utilities and the editor-to-render conversion (`RemotionTimeline`);
- the effect evaluator and the per-frame opacity and slide-in folds (`Effects`,
  `BackendComposition`, `FrontendComposition`), and the track-type dispatch (`Composition`);
- text positioning (`Positioning`);
- the keyword classifier for chat requests (`GeminiPrompts`);
- chat-history pruning and validation (`ChatStorage`).

Modelling conventions:

- Times in seconds are `real`, so the arithmetic is exact. Frames are `int`.
- Optional JavaScript fields are `Option`. Track types and ids, whose only use is a truthiness or
  equality test, use `""` for "absent".
- A clip's `effects` is a sequence; an absent list is `[]`, which every consumer treats the same way.
- Randomly generated ids and colours, and `Date.now()`, are parameters. The store's add actions
  require the new clip or track id to be fresh.
- An effect's progress divides by its duration only when the effect is active. Every member that
  evaluates progress requires exactly that divisor to be non-zero.

`frontend/src/utils/timeline.ts` and `frontend/src/remotion/VideoComposition.tsx` contain
unresolved merge conflicts:

- For `utils/timeline.ts` the model follows the HEAD side, the only side that defines the
  editor-to-render conversion.
- For the text component in `VideoComposition.tsx` both sides are modelled, separately:
  `TextClipComponentHead` (bottom slides only) and `TextClipComponent` (four directions, anchored
  position).

## Model

| member | source | states |
|---|---|---|
| EditorStore.TimelineStore.constructor | frontend/src/stores/timelineStore.ts:36-64 | two empty tracks `track-1`/`track-2`, no assets, playhead 0, zoom 1, 50 px/s, 120 s, snapping on, grid 0.1; the store invariant holds |
| EditorStore.TimelineStore.AddTrack | frontend/src/stores/timelineStore.ts:66-76 | appends one empty track with the fresh id, the given name or `Track <n+1>`, height 80, unmuted, unlocked |
| EditorStore.TimelineStore.RemoveTrack | frontend/src/stores/timelineStore.ts:78-84 | tracks become `RemoveTrackFrom`, the selection `PruneSelection` of the old tracks; the invariant (no repeated selected id) is kept |
| EditorStore.TimelineStore.AddAsset | frontend/src/stores/timelineStore.ts:86-88 | the asset is appended |
| EditorStore.TimelineStore.RemoveAsset | frontend/src/stores/timelineStore.ts:90-96 | assets lose the id and tracks lose every clip referencing it; the selection is not touched |
| EditorStore.TimelineStore.GetAsset | frontend/src/stores/timelineStore.ts:98-101 | the result is absent exactly when no asset has the id, else an asset with the id (the first) |
| EditorStore.TimelineStore.AddClip | frontend/src/stores/timelineStore.ts:103-132 | appends the media clip built from the resolved asset to the tracks with the id, then the duration is the padded duration of the new tracks |
| EditorStore.TimelineStore.AddClipFromAsset | frontend/src/stores/timelineStore.ts:134-161 | as AddClip with the given asset |
| EditorStore.TimelineStore.AddTextClip | frontend/src/stores/timelineStore.ts:163-192 | appends the text clip, then re-derives the duration |
| EditorStore.TimelineStore.RemoveClip | frontend/src/stores/timelineStore.ts:194-200 | no track holds the id afterwards and the id has left the selection |
| EditorStore.TimelineStore.MoveClip | frontend/src/stores/timelineStore.ts:202-230 | the loop that collects `clipToMove` and the tracks without the clip computes exactly `MoveClipIn`; the duration is then re-derived |
| EditorStore.TimelineStore.TrimClip | frontend/src/stores/timelineStore.ts:232-261 | tracks become `TrimClips`, then the duration is re-derived |
| EditorStore.TimelineStore.SplitClip | frontend/src/stores/timelineStore.ts:263-295 | tracks become `SplitTracks`; the padded duration is unchanged, so not re-deriving it loses nothing |
| EditorStore.TimelineStore.SelectClip | frontend/src/stores/timelineStore.ts:297-312 | selection and flags as `SelectIds`/`MarkSelected`; the selection stays free of duplicates |
| EditorStore.TimelineStore.DeselectAllClips | frontend/src/stores/timelineStore.ts:314-320 | empty selection, all flags cleared |
| EditorStore.TimelineStore.SetPlayheadPosition | frontend/src/stores/timelineStore.ts:322 | the playhead is set |
| EditorStore.TimelineStore.SetZoom | frontend/src/stores/timelineStore.ts:324-327 | zoom is the clamped value and pixels per second is 50 times it |
| EditorStore.TimelineStore.ToggleSnapToGrid | frontend/src/stores/timelineStore.ts:329 | the flag is negated |
| EditorStore.TimelineStore.UpdateTrack | frontend/src/stores/timelineStore.ts:331-335 | tracks become `UpdateTrackIn` |
| EditorStore.TimelineStore.UpdateClip | frontend/src/stores/timelineStore.ts:337-344 | tracks become `UpdateClipIn` |
| EditorStore.TimelineStore.UpdateTimelineDuration | frontend/src/stores/timelineStore.ts:346-372 | the nested loops leave `duration == max(120, maxEnd + 60)` (`PaddedDuration`) |
| EditorStore.TimelineStore.LoadTimelineFromAI | frontend/src/stores/timelineStore.ts:374-443 | a non-array timeline changes nothing; otherwise tracks are `LoadTracks`, the selection is empty and the playhead 0; the duration is not re-derived |
| EditorOps.TextClipName | frontend/src/stores/timelineStore.ts:172 | `Text: ` plus the text when it has at most 20 characters, else its first 20 and `...`; never longer than 29 |
| EditorOps.AppendClipMeaning | frontend/src/stores/timelineStore.ts:121-127 | tracks with the id get the clip at the end, all others are unchanged, and with no such track nothing changes |
| EditorOps.NewTextClipIsText | frontend/src/stores/timelineStore.ts:163-181 | a text clip of non-empty text is a text clip for the renderer and carries the text as transcript |
| EditorOps.NewMediaClipFromAsset | frontend/src/stores/timelineStore.ts:105-119 | a clip from an asset takes its duration, id and URL, has no trim, a non-empty name and is unselected |
| EditorOps.FindTrack | frontend/src/stores/timelineStore.ts:81 | absent iff no track has the id, else the first track with it |
| EditorOps.RemoveTrackMeaning | frontend/src/stores/timelineStore.ts:78-84 | no track with the id remains, all others do; selected ids of clips on the first such track are dropped and all other selected ids stay |
| EditorOps.RemoveAssetMeaning | frontend/src/stores/timelineStore.ts:90-96 | no remaining asset has the id, all others stay; no remaining clip references it, all clips referencing something else stay |
| EditorOps.WithoutClipMeaning | frontend/src/stores/timelineStore.ts:195-198 | the track no longer holds the id, keeps every other clip and nothing new, and is unchanged if it never held it |
| EditorOps.RemoveClipMeaning | frontend/src/stores/timelineStore.ts:194-200 | no track holds the id; a selected id survives iff it differs from the removed one |
| EditorOps.FindClip | frontend/src/stores/timelineStore.ts:208 | absent iff no clip has the id, else the first clip of the track with the id |
| EditorOps.LastFoundNone | frontend/src/stores/timelineStore.ts:204-215 | `clipToMove` stays unset iff no track holds the id |
| EditorOps.LastFoundWhere | frontend/src/stores/timelineStore.ts:207-211 | when set, `clipToMove` is the first clip with the id on a track after which no track holds it |
| EditorOps.ExtractClip | frontend/src/stores/timelineStore.ts:204-215 | the one pass over the tracks yields the tracks without the clip and, as `clipToMove`, the last copy found moved to the target track and start time |
| EditorOps.MoveUnknownUnchanged | frontend/src/stores/timelineStore.ts:217 | moving an unknown id leaves the tracks unchanged |
| EditorOps.MovedClipOrigin | frontend/src/stores/timelineStore.ts:209-211 | the moved clip is a clip that had the id, with the target track id and the new start |
| EditorOps.MoveClipMeaning | frontend/src/stores/timelineStore.ts:202-225 | every track loses its clips with the id and the target tracks get the moved clip once at the end |
| EditorOps.MoveToMissingTrack | frontend/src/stores/timelineStore.ts:219-225 | moving onto a track id that does not exist removes the clip from the timeline |
| EditorOps.TrimConservation | frontend/src/stores/timelineStore.ts:239-253 | start trim: the end and `startTime - trimStart` are kept; end trim: the start and `duration + trimEnd` are kept, the end is `newTime`; no other field changes |
| EditorOps.TrimUnderDragGuard | frontend/src/components/Timeline/Clip.tsx:87-101 | under the drag handler's guards a trimmed clip stays longer than 0.1 s and a start trim stays at or after 0 |
| EditorOps.TrimClipsMeaning | frontend/src/stores/timelineStore.ts:234-256 | exactly the clips with the id are trimmed; an unknown id changes nothing |
| EditorOps.FindIndex | frontend/src/stores/timelineStore.ts:265-266 | absent iff no clip has the id, else the first index with it |
| EditorOps.SplitInside | frontend/src/stores/timelineStore.ts:263-291 | inside the clip: the two parts replace it at the same index; the first is the clip with duration `splitTime-start`, the second the clip with the new id, start at the split, the remainder and `trimStart + splitPoint`, every other key copied into both; durations sum and the parts abut |
| EditorOps.SplitOutsideUnchanged | frontend/src/stores/timelineStore.ts:265-271 | an unknown id or a time at or outside the clip's ends leaves the track unchanged |
| EditorOps.SplitKeepsTrackEnd | frontend/src/stores/timelineStore.ts:263-291 | splitting leaves the running maximum of a track's clip ends unchanged |
| EditorOps.SplitKeepsDuration | frontend/src/stores/timelineStore.ts:263-295 | splitting on all tracks keeps the furthest clip end and the padded duration |
| EditorOps.SelectMeaning | frontend/src/stores/timelineStore.ts:297-312 | single select: the selection is `[id]` and a clip is flagged iff it has the id; multi-select: the id's membership and flag are toggled, every other id and flag stays |
| EditorOps.SelectionStaysDistinct | frontend/src/stores/timelineStore.ts:79-83 | selecting, deselecting one id and pruning by a track never create a repeated selected id |
| EditorOps.DeselectAllMeaning | frontend/src/stores/timelineStore.ts:314-320 | no clip is flagged, nothing else changes, and doing it twice equals once |
| EditorOps.ClampZoomMeaning | frontend/src/stores/timelineStore.ts:324-327 | the zoom lands in [0.1, 10], is kept when already there, snaps to the nearer end otherwise, and clamping is idempotent |
| EditorOps.TrackUpdateMeaning | frontend/src/stores/timelineStore.ts:331-335 | on the track with the id each key takes the update's value when present and keeps the track's otherwise; other tracks are untouched, and applying the update twice equals once |
| EditorOps.ClipUpdateMeaning | frontend/src/stores/timelineStore.ts:337-344 | clips with the id become `ApplyClipUpdate` of themselves, clips with other ids and the track keys are untouched, and applying it twice equals once |
| EditorOps.ApplyClipUpdateKeys | frontend/src/stores/timelineStore.ts:340 | each modelled clip key, the visual keys included, takes the update's value when present and keeps the clip's otherwise |
| EditorOps.ClipsMaxEndBounds | frontend/src/stores/timelineStore.ts:350-355 | the running maximum is at least its start and every clip end, and is its start or some clip end |
| EditorOps.TracksMaxEndBounds | frontend/src/stores/timelineStore.ts:350-356 | the same over all tracks |
| EditorOps.ClipsMaxEndAppend | frontend/src/stores/timelineStore.ts:351-355 | the running maximum over a concatenation continues from the first part's |
| EditorOps.ClipsMaxEndPair | frontend/src/stores/timelineStore.ts:274-287 | two abutting split parts leave the running maximum as the original clip did |
| EditorOps.TracksMaxEndByTrack | frontend/src/stores/timelineStore.ts:350-356 | track sequences whose clips give the same running maxima give the same overall maximum |
| EditorOps.PaddedDurationRule | frontend/src/stores/timelineStore.ts:346-372 | the maximum end is at least 0 (0 for no clips); the duration is at least 120 and 60 past every clip end, and is 120 or 60 past an actual clip end |
| EditorOps.LoadFps | frontend/src/stores/timelineStore.ts:387 | `project.fps`, or 30 when absent or zero; never zero |
| EditorOps.LoadClipTiming | frontend/src/stores/timelineStore.ts:387-393 | a loaded clip's start and duration times the frame rate are its frame counts; the given id is kept, else the generated one is used |
| EditorOps.AiTrackIdsDistinct | frontend/src/stores/timelineStore.ts:383 | `ai-track-N` ids at distinct positions differ |
| EditorOps.LoadTracksShape | frontend/src/stores/timelineStore.ts:382-433 | one track per input track, ids `ai-track-1..n` pairwise distinct, type and clip count kept |
| EditorOps.LoadTracksClips | frontend/src/stores/timelineStore.ts:385-420 | each loaded clip carries its track id, frames divided by the frame rate, its given id, text and effects, and is unselected |
| EditorOps.LoadRejectsNonArrays | frontend/src/stores/timelineStore.ts:377-380 | loading yields nothing exactly when the timeline value is not an array |
| RemotionTimeline.CalculateTotalDuration | frontend/src/utils/timeline.ts:19-32 | the nested loops compute `TotalDuration` |
| RemotionTimeline.ClipsMaxEndBounds | frontend/src/utils/timeline.ts:22-28 | the running maximum is at least its start and every clip end, and is one of them |
| RemotionTimeline.TracksMaxEndBounds | frontend/src/utils/timeline.ts:21-29 | the same over tracks |
| RemotionTimeline.TotalDurationIsFurthestEnd | frontend/src/utils/timeline.ts:19-32 | the total duration is at least 0 and every clip end, is 0 or an actual end, and is 0 without clips |
| RemotionTimeline.GetActiveClipsAtFrame | frontend/src/utils/timeline.ts:37-52 | the loops collect exactly `ActiveClips`, in track-then-clip order |
| RemotionTimeline.PushActiveInTrack | frontend/src/utils/timeline.ts:41-48 | the inner loop appends exactly the track's clips spanning the frame, in clip order |
| RemotionTimeline.ActiveInTrackMembers | frontend/src/utils/timeline.ts:41-48 | a pair is collected from a track iff its clip is on the track and `start <= frame < start + duration` |
| RemotionTimeline.ActiveClipsMembers | frontend/src/utils/timeline.ts:37-52 | a pair is collected iff its track is in the timeline, the clip on it and active at the frame |
| RemotionTimeline.FindAsset | frontend/src/utils/timeline.ts:133 | absent iff no asset has the id, else the first asset with it |
| RemotionTimeline.ConvertTimelineToRemotionFormat | frontend/src/utils/timeline.ts:109-116 | the project is 1920x1080 at 30 fps |
| RemotionTimeline.ConvertKeepsTracksWithClips | frontend/src/utils/timeline.ts:117-120 | no more tracks than the input; every track with clips is converted, and every output track is a converted input track with clips |
| RemotionTimeline.ConvertTextClip | frontend/src/utils/timeline.ts:113-135 | a transcript-only clip is kept with its text, the fixed text style, its position or the centre, its effects, and frames `floor(seconds*30)` |
| RemotionTimeline.ConvertMediaClip | frontend/src/utils/timeline.ts:132-160 | a media clip is kept iff its URL or its first asset's URL is non-empty; then it has that URL, no text, start and duration rounded down to frames at 30 fps, and source in/out from the trim |
| RemotionTimeline.ResolvedUrlFromAsset | frontend/src/utils/timeline.ts:139-142 | without its own URL a media clip gets a usable URL iff the first asset with its id has a non-empty one, and then it is that URL |
| RemotionTimeline.ConvertClipsCount | frontend/src/utils/timeline.ts:121-162 | the converted clips are at most the input clips and exactly the ones that convert |
| RemotionTimeline.TrackTypeRule | frontend/src/utils/timeline.ts:164-172 | a track with text clips and no media clips is `text`; a track with media clips keeps its type, default `video` |
| Effects.QuotientBelowOne | frontend/src/utils/timeline.ts:86-88 | `a/d` is in [0, 1) for `0 <= a < d` |
| Effects.QuotientMonotone | frontend/src/utils/timeline.ts:86-95 | `a/d` does not decrease in `a` for `d > 0` |
| Effects.EntranceProgress | frontend/src/utils/timeline.ts:68-98 | fade-in and slide-in are active iff `localFrame < d`; progress is 1 from `d` on, in [0, 1) before, 0 at frame 0 and negative before it |
| Effects.ExitProgress | frontend/src/utils/timeline.ts:68-98 | fade-out is active iff `localFrame >= clipDuration - d`; progress is 0 before and in [0, 1) over the last `d` frames |
| Effects.UnknownEffectInert | frontend/src/utils/timeline.ts:76-97 | an unknown effect is never active and has progress 1 |
| Effects.ProgressMonotone | frontend/src/utils/timeline.ts:84-98 | progress does not decrease with the local frame |
| Effects.OpacityIsLeastBound | backend/remotion/VideoComposition.js:43-55 | the folded opacity is at most 1 and every active fade's bound, and is 1 or one of those bounds |
| Effects.NoActiveFadeIsOpaque | backend/remotion/VideoComposition.js:43-55 | with no active fade the opacity is 1 |
| Effects.OpacityOrderIndependent | backend/remotion/VideoComposition.js:43-55 | permuting the effects does not change the opacity |
| Effects.OpacityBelowPermutation | backend/remotion/VideoComposition.js:43-55 | one direction of order independence: a permutation's opacity is no smaller |
| Effects.OpacityInUnitRange | backend/remotion/VideoComposition.js:43-84 | inside the clip and with positive effect durations the opacity is in [0, 1] |
| Effects.OpacityIgnoresSlides | backend/remotion/VideoComposition.js:76-88 | removing slide-ins does not change the opacity |
| Effects.WithoutSlides | backend/remotion/VideoComposition.js:76-88 | the remaining effects are input effects and none is a slide-in |
| Effects.NoActiveSlideNoOffset | frontend/src/remotion/VideoComposition.tsx:88-107 | with no active slide-in there is no displacement |
| Effects.LastActiveSlideDecides | frontend/src/remotion/VideoComposition.tsx:88-107 | the last active slide-in alone decides the displacement: +Y, -Y, -X, +X by `(1-progress)*100` for bottom, top, left, right |
| Effects.NoBottomSlideNoOffset | backend/remotion/VideoComposition.js:85-88 | with no active bottom slide-in there is no displacement |
| Effects.LastBottomSlideDecides | backend/remotion/VideoComposition.js:85-88 | the last active bottom slide-in gives `translateY = (1-progress)*100` |
| Effects.SlideDistanceEnds | backend/remotion/VideoComposition.js:85-88 | the slide distance is 100 at local frame 0 and 0 once progress reaches 1 |
| BackendComposition.EvaluatorAgreesWithFrontend | backend/remotion/VideoComposition.js:5-37 | the backend's local frame, activity and progress agree case by case with the frontend evaluator |
| BackendComposition.VideoClipComponent | backend/remotion/VideoComposition.js:39-67 | the fold loop yields the opacity `Effects.Opacity`; the source, start and end frames are the clip's |
| BackendComposition.TextClipComponent | backend/remotion/VideoComposition.js:69-109 | the fold loop yields the opacity and a centred transform with the bottom-slide displacement |
| FrontendComposition.VideoClipOpacity | frontend/src/remotion/VideoComposition.tsx:19-35 | the fold loop yields `Effects.Opacity` |
| FrontendComposition.TextClipComponentHead | frontend/src/remotion/VideoComposition.tsx:62-86 | HEAD side: opacity and a centred transform with the bottom-slide displacement |
| FrontendComposition.TextClipComponent | frontend/src/remotion/VideoComposition.tsx:62-107 | other side: opacity, and the anchor transform of the clip's position with the last active slide's displacement |
| FrontendComposition.VariantsAgreeOnBottomSlides | frontend/src/remotion/VideoComposition.tsx:84-107 | when every active slide-in comes from the bottom both sides give the same displacement |
| FrontendComposition.DefaultAnchorMatchesHead | frontend/src/remotion/VideoComposition.tsx:68-70 | without a position the anchor transform is the HEAD side's `translate(-50%, -50%)` |
| Composition.DispatchByTrackType | backend/remotion/VideoComposition.js:123-127 | `video` tracks use the video component, `text` tracks the text component, and anything else renders nothing |
| Composition.MountedInTrackMembers | frontend/src/remotion/VideoComposition.tsx:162-190 | a clip of a track is mounted at a frame iff it is active then and the track type has a component |
| Composition.MountedMembers | frontend/src/remotion/VideoComposition.tsx:162-190 | the same over all tracks |
| Composition.MountedAreActive | backend/remotion/VideoComposition.js:111-133 | every mounted clip is one `getActiveClipsAtFrame` reports |
| TimelineHelpers.SecondsToFrames | backend/prompts/timelineHelpers.js:13-15 | the result is the integer nearest `seconds*fps` (halves round up) |
| TimelineHelpers.FramesToSeconds | backend/prompts/timelineHelpers.js:20-22 | `seconds*fps == frames` |
| TimelineHelpers.FramesRoundTrip | backend/prompts/timelineHelpers.js:13-22 | frames to seconds and back returns the frames, for `fps > 0` |
| TimelineHelpers.SecondsToFramesMonotone | backend/prompts/timelineHelpers.js:13-15 | later times never give fewer frames |
| TimelineHelpers.MergeStyleOverrideWins | backend/prompts/timelineHelpers.js:56-65 | each given style key wins over the default, each missing key takes the default |
| TimelineHelpers.CreateTextClip | backend/prompts/timelineHelpers.js:56-65 | a clip with the id, text, frames, merged style and no effects or media |
| TimelineHelpers.CreateVideoClip | backend/prompts/timelineHelpers.js:70-78 | a clip with the id, URL, frames and no effects, text or style |
| TimelineHelpers.FindClipInTrack | backend/prompts/timelineHelpers.js:85-87 | absent iff no clip has the id, else the first clip with it |
| TimelineHelpers.FindClipById | backend/prompts/timelineHelpers.js:83-89 | absent iff no track holds the id, else the first holding track and its first clip with the id |
| TimelineHelpers.FindTrackById | backend/prompts/timelineHelpers.js:94-96 | absent iff no track has the id, else the first track with it |
| TimelineHelpers.TrackNumbersMeaning | backend/prompts/timelineHelpers.js:102-106 | exactly the numbers found in track ids, none when no id has one |
| TimelineHelpers.MaxOf | backend/prompts/timelineHelpers.js:107 | the maximum of a non-empty list |
| TimelineHelpers.TrackIdNumber | backend/prompts/timelineHelpers.js:103-109 | `track-N` is read back as N |
| TimelineHelpers.NextTrackIdIsFresh | backend/prompts/timelineHelpers.js:101-110 | the next number exceeds every existing one and the new id differs from every existing track id |
| TimelineHelpers.NextTrackIdStartsAtOne | backend/prompts/timelineHelpers.js:101-110 | with no numbered track the id is `track-1` |
| TimelineHelpers.CreateTrack | backend/prompts/timelineHelpers.js:115-121 | an empty track of the type with the given id or `track-<now>` |
| TimelineHelpers.AddEffectOnceMeaning | backend/prompts/timelineHelpers.js:126-151 | the effect type is present afterwards, existing effects are kept, and it is appended only if absent |
| TimelineHelpers.AddEffectOnceIdempotent | backend/prompts/timelineHelpers.js:126-151 | adding the same type twice equals adding it once |
| TimelineHelpers.AddFadeInIdempotent | backend/prompts/timelineHelpers.js:126-136 | `addFadeIn` twice equals once and keeps earlier effects |
| TimelineHelpers.AddFadeOutIdempotent | backend/prompts/timelineHelpers.js:141-151 | `addFadeOut` twice equals once and keeps earlier effects |
| TimelineHelpers.BothFadesAdded | backend/prompts/timelineHelpers.js:126-151 | on a clip with neither, fade-in then fade-out adds exactly both |
| TimelineValidation.ValidateClip | backend/prompts/timelineHelpers.js:175-183 | one step of the clip loop pushes exactly that clip's errors, in the source's order |
| TimelineValidation.ValidateClips | backend/prompts/timelineHelpers.js:174-184 | the clip loop collects exactly `ClipsErrors` |
| TimelineValidation.ValidateTrack | backend/prompts/timelineHelpers.js:169-185 | one step of the track loop pushes exactly that track's errors |
| TimelineValidation.ValidateTracks | backend/prompts/timelineHelpers.js:168-186 | the track loop collects exactly `TracksErrors` |
| TimelineValidation.ValidateTimeline | backend/prompts/timelineHelpers.js:156-190 | the validator returns exactly `TimelineErrors`, throwing for a non-array timeline |
| TimelineValidation.ClipsErrorsEmpty | backend/prompts/timelineHelpers.js:174-184 | no clip errors iff every clip has an id and numeric frames |
| TimelineValidation.TrackErrorsEmpty | backend/prompts/timelineHelpers.js:169-185 | a track reports nothing iff it has an id, a type and only well-formed clips |
| TimelineValidation.TracksErrorsEmpty | backend/prompts/timelineHelpers.js:168-186 | no track errors iff every track is well formed |
| TimelineValidation.ValidIffWellFormed | backend/prompts/timelineHelpers.js:156-190 | the error list is empty iff project and timeline are present and all tracks and clips are well formed |
| TimelineValidation.SignNotChecked | backend/prompts/timelineHelpers.js:178-183 | negative start and duration pass validation |
| TimelineOperations.ChangeText | backend/prompts/timelineHelpers.js:197-209 | the loops over the copy compute `ChangedText` |
| TimelineOperations.ChangeTextMeaning | backend/prompts/timelineHelpers.js:197-209 | only clips of text tracks whose text contains the old text case-insensitively get the new text; all else is kept |
| TimelineOperations.ChangeTextIdempotent | backend/prompts/timelineHelpers.js:197-209 | applying the same change twice equals once |
| TimelineOperations.ChangeTextIgnoresCase | backend/prompts/timelineHelpers.js:202 | matching is the same for the old text and its lower-case form |
| TimelineOperations.ChangeTextColor | backend/prompts/timelineHelpers.js:233-245 | the loops over the copy compute `RecoloredText` |
| TimelineOperations.ChangeTextColorMeaning | backend/prompts/timelineHelpers.js:233-245 | only styled clips of text tracks get the colour; track ids, types and clip counts are kept, and each clip differs from its original at most in its style |
| TimelineOperations.ChangeTextColorLastWins | backend/prompts/timelineHelpers.js:233-245 | recolouring twice equals recolouring with the second colour |
| TimelineOperations.FirstTextTrack | backend/prompts/timelineHelpers.js:216 | absent iff no track is a text track, else the first one |
| TimelineOperations.ClipCountUpdate | backend/prompts/timelineHelpers.js:228 | replacing one track changes the clip count by the difference in its clips |
| TimelineOperations.ClipCountAppend | backend/prompts/timelineHelpers.js:217-220 | appending a track adds its clips to the count |
| TimelineOperations.OverlayClipShape | backend/prompts/timelineHelpers.js:222-227 | the overlay clip starts at 0, 150 or 300, lasts 90 frames, has the default style and one 15-frame fade-in |
| TimelineOperations.AddTextOverlayMeaning | backend/prompts/timelineHelpers.js:212-230 | exactly one clip is added, to the first text track or to a new text track with a fresh id; nothing else changes |
| Positioning.UnitOrPercent | frontend/src/utils/positioning.ts:25 | the unit is `%` exactly when it is missing, `%` or the empty name; otherwise it is the given unit |
| Positioning.DefaultIsCentred | frontend/src/utils/positioning.ts:17-30 | without a position: left and top 50%, transform `translate(-50%, -50%)` |
| Positioning.AnchorGrid | frontend/src/utils/positioning.ts:32-62 | the nine anchors map left/centre/right to 0/-50/-100 and top/centre/bottom likewise; unknown or absent anchors centre; left/top are the position in its unit (`%` when the unit is missing or empty) |
| Positioning.LayoutDefaults | frontend/src/utils/positioning.ts:64-79 | text alignment defaults to centre, wrapping to normal; max width (in `%` when its unit is missing or empty) and line height appear iff truthy |
| Positioning.PixelsRoundTrip | frontend/src/utils/positioning.ts:90-122 | to pixels and back, and back and to pixels, are identities for a non-zero container |
| Positioning.ConvertUnitRoundTrip | frontend/src/utils/positioning.ts:84-123 | equal units convert to themselves; a to b to a is the identity for a positive container |
| Positioning.ValidatePositionMeaning | frontend/src/utils/positioning.ts:125-154 | valid iff no errors; % needs both coordinates in [0, 100], px within the container, other units always pass; at most two errors |
| Positioning.ResponsiveScaling | frontend/src/utils/positioning.ts:156-175 | % positions are unchanged; others scale by target/original and keep unit and anchor; equal sizes change nothing |
| GeminiPrompts.Rank | backend/prompts/geminiPrompts.js:223-258 | each non-general label has a place in the rule order |
| GeminiPrompts.RulesAsKeywords | backend/prompts/geminiPrompts.js:227-255 | each keyword-list rule of the priority table holds exactly when one of the keywords its branch of the if-chain tests occurs |
| GeminiPrompts.FirstMatchingRule | backend/prompts/geminiPrompts.js:223-258 | the label is `general` iff no rule matches the lower-cased message, else the label of the first matching rule |
| GeminiPrompts.CaseInsensitive | backend/prompts/geminiPrompts.js:224 | classifying the lower-cased message gives the same label |
| GeminiPrompts.CutWins | backend/prompts/geminiPrompts.js:227-229 | `cut` or `split` anywhere gives `cutClip` |
| GeminiPrompts.RemoveRules | backend/prompts/geminiPrompts.js:230-256 | `remove` with seconds/first/last gives `trimClip`; `removeElement` iff remove/delete and no earlier rule |
| GeminiPrompts.JoinBeforeLaterRules | backend/prompts/geminiPrompts.js:234-251 | join/merge/combine wins over every later rule |
| ChatStorage.PruneMessages | frontend/src/utils/chatStorage.ts:121-129 | unchanged up to 1000 messages, else the last 1000 in order; never more than 1000 |
| ChatStorage.PruneIdempotent | frontend/src/utils/chatStorage.ts:121-129 | pruning twice equals once and keeps the newest message |
| ChatStorage.MessagesJson | frontend/src/utils/chatStorage.ts:48-62 | one stored record per message, in order |
| ChatStorage.LoadHistoryKeepsValid | frontend/src/utils/chatStorage.ts:16-43 | only valid messages are loaded; from an array exactly the valid ones, in order |
| ChatStorage.LoadHistoryEmptyCases | frontend/src/utils/chatStorage.ts:16-43 | nothing stored, unparsable data or no `messages` array loads nothing |
| ChatStorage.MessageJsonValid | frontend/src/utils/chatStorage.ts:111-119 | every saved message passes validation |
| ChatStorage.SaveThenLoad | frontend/src/utils/chatStorage.ts:16-62 | loading what was saved gives the pruned messages, at most 1000 |
| Strings.NatToStringRoundTrip | backend/prompts/timelineHelpers.js:101-110 | a number's decimal form is non-empty digits that read back as the number |
| Strings.NatToStringInjective | frontend/src/stores/timelineStore.ts:383 | distinct numbers have distinct decimal forms |
| Strings.ToLowerIdempotent | backend/prompts/geminiPrompts.js:224 | lower-casing twice equals once |

## Left out

- React components, DOM events, drag and drop and pixel-to-time mapping. They are UI. The one trim
  guard in the drag code appears only as the hypothesis of `EditorOps.TrimUnderDragGuard`.
- The Express server, Gemini calls, Remotion bundling and rendering, uploads and `fetch`. These are
  network and I/O.
- IndexedDB and localStorage persistence, including the `localStorage` calls in the chat storage.
  `ChatStorage.LoadHistory` takes the parsed stored value as a parameter.
- Prompt templates and response parsing in the prompt module, which are prose and regular
  expressions. The response validation there never blocks anything.
- Operations that appear only in prompt text (cut ranges, crossfade merges and the like); no code
  implements them.
- `Math.random`, `Date.now` and the colour picker. Ids, times and colours are parameters. Only the
  add actions require a fresh id and a colour from the palette. `EditorStore.TimelineStore.SplitClip`
  and `EditorStore.TimelineStore.LoadTimelineFromAI` accept any generated ids and colours.
- `console.log` calls, and CSS strings. A transform is an (anchor, axis, amount) value.
- JavaScript numbers are IEEE doubles; the model computes in exact reals.
- Remotion's `useCurrentFrame` rebasing inside a `Sequence`. Each component method takes the frame
  it observes.
- The other side of the merge conflict in `frontend/src/utils/timeline.ts`.
- EditorStore.TimelineStore.LoadTimelineFromAI: the `try`/`catch` around the conversion is not
  modelled. Input that would throw (a `null` track entry, a non-string `assetUrl`) cannot be
  expressed in the raw timeline type. The clip keys `volume`, `muted`, `scene` and `tags` are not
  carried.
- EditorOps.ClipUpdate: a `metadata` update is modelled as its `transcript` key only; no other
  clip metadata exists in the model.
- EditorOps.ClipUpdate: the editor clip keys `text`, `style`, `layout`, `startInFrames`,
  `durationInFrames`, `volume` and `muted` are not part of the modelled editor clip, so an update
  cannot set them and the merge does not carry them.
- EditorStore.TimelineStore.UpdateClip: the same keys (`text`, `style`, `layout`, `startInFrames`,
  `durationInFrames`, `volume`, `muted`) are not modelled; the contract covers the modelled keys.
- ChatStorage.ChatMessage: the optional `metadata` record of a chat message is not modelled; a
  stored message keeps only its id, role, content and timestamp.
- TimelineValidation.TimelineErrors: a track whose `clips` is truthy but not an array (a string
  such as `"x"`, or an object `{}`) and a `null` entry in a track's clip list both make the
  validator throw. The raw track type holds its clips as an optional list of clip records, so
  neither input can be expressed and the model has no `Threw` result for them.
- TimelineHelpers.AddFadeIn and TimelineHelpers.AddFadeOut push onto the clip's effect list in
  place. The model returns the updated clip, so aliasing of that list is not modelled.
- The clip `type` key of the editor types is not modelled. No store action sets or reads it.
- TimelineOperations.ChangeText: the match lower-cases with `Strings.ToLower`, which folds only
  ASCII `A`-`Z`. JavaScript's `toLowerCase` folds all of Unicode, so clip text `ÉCOLE` matches
  `école` in the source but not in the model. Strings are sequences of characters, with no Unicode
  normalisation.
- GeminiPrompts.DetectEditingOperation: the message is lower-cased with the same ASCII-only
  `Strings.ToLower`. JavaScript also maps non-ASCII capitals, for example the Kelvin sign U+212A to
  `k` and `İ` to `i` plus a combining dot; the model leaves them as they are.
- EditorOps.TextClipName: the 20-character limit counts characters. JavaScript's `length` and
  `substring` count UTF-16 code units, so text with characters outside the Basic Multilingual
  Plane (emoji) is cut at a different place.
- EditorStore.TimelineStore.LoadTimelineFromAI: the raw timeline's `fps` and frame counts are
  integers. Fractional values (29.97 fps, 45.5 frames) and strings that JavaScript coerces (`"30"`)
  cannot be expressed. The structural validator also accepts any number there.
- TimelineHelpers.FramesToSeconds: requires `fps` to be non-zero; JavaScript returns `Infinity` or
  `NaN` for a zero frame rate.
- Effects.GetEffectProgress: requires the effect duration to be non-zero whenever the effect is
  active; JavaScript's division then yields `Infinity` or `NaN`, which the model does not describe.
- Effects.FadeBound: the same requirement as `Effects.GetEffectProgress`.
- BackendComposition.GetEffectProgress: the same requirement as `Effects.GetEffectProgress`.
- Positioning.FromPixels: requires a non-zero container size when converting into `%`; JavaScript
  returns `Infinity` or `NaN` there.
- Positioning.ConvertUnit: the same requirement as `Positioning.FromPixels`.
- Positioning.CreateResponsivePosition: requires non-zero original width and height for units other
  than `%`; JavaScript scales by `Infinity` or `NaN` there.
