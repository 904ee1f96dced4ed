/** The entities of the timeline model (frontend/src/types/timeline.ts), in three shapes:
    the seconds-based editor records held by the store, the frame-based interchange records
    consumed by the renderer, and the untyped JSON an external assistant returns. */
module TimelineTypes {
  import opened Wrappers

  // ---- Effects ----

  /** An effect's `type`. The declared union has three members; `OtherEffect` stands for any
      other string an untrusted timeline may carry, which every switch sends to its default. */
  datatype EffectKind = FadeIn | FadeOut | SlideIn | OtherEffect(name: string)

  datatype Direction = FromBottom | FromTop | FromLeft | FromRight

  /** `direction` is absent (or unrecognised) when `None`. */
  datatype Effect = Effect(kind: EffectKind, durationInFrames: int, direction: Option<Direction>)

  // ---- Positioning ----

  datatype PositionUnit = Px | Percent | Vw | Vh | OtherUnit(name: string)

  datatype Anchor =
    | TopLeft | TopCenter | TopRight
    | CenterLeft | Center | CenterRight
    | BottomLeft | BottomCenter | BottomRight
    | OtherAnchor(name: string)

  datatype Position = Position(x: real, y: real, unit: Option<PositionUnit>, anchor: Option<Anchor>)

  datatype TextAlign = AlignLeft | AlignCenter | AlignRight | Justify

  datatype WordWrap = WrapNormal | BreakWord | NoWrap

  datatype Layout = Layout(
    textAlign: Option<TextAlign>,
    maxWidth: Option<real>,
    maxWidthUnit: Option<PositionUnit>,
    wordWrap: Option<WordWrap>,
    lineHeight: Option<real>)

  datatype TextStyle = TextStyle(
    fontFamily: string,
    fontSize: real,
    fontWeight: string,
    color: string,
    textShadow: Option<string>,
    letterSpacing: Option<real>,
    textTransform: Option<string>)

  datatype ProjectSettings = ProjectSettings(width: int, height: int, fps: int)

  /** The optional visual properties every clip shape carries. */
  datatype Visual = Visual(
    scale: Option<real>,
    position: Option<Position>,
    rotation: Option<real>,
    opacity: Option<real>)

  const NoVisual := Visual(None, None, None, None)

  // ---- Editor records (seconds) ----

  datatype MediaKind = VideoMedia | AudioMedia | ImageMedia

  datatype MediaAsset = MediaAsset(id: string, url: string, kind: MediaKind, duration: real)

  /** An editor clip. `transcript` is `metadata.transcript`, the text of a text clip. */
  datatype Clip = Clip(
    id: string,
    trackId: string,
    startTime: real,
    duration: real,
    assetId: Option<string>,
    assetUrl: Option<string>,
    trimStart: real,
    trimEnd: real,
    name: string,
    color: string,
    selected: bool,
    transcript: Option<string>,
    visual: Visual,
    effects: seq<Effect>)

  /** An editor track. `kind` is the optional `type`; the empty string stands for an absent one. */
  datatype Track = Track(
    id: string,
    name: string,
    height: real,
    muted: bool,
    locked: bool,
    color: string,
    clips: seq<Clip>,
    kind: string)

  // ---- Interchange records (frames) ----

  /** A clip of the frame-based format: a media clip carries `assetUrl`, a text clip `text` and `style`. */
  datatype RemotionClip = RemotionClip(
    id: string,
    startInFrames: int,
    durationInFrames: int,
    assetUrl: Option<string>,
    sourceIn: Option<int>,
    sourceOut: Option<int>,
    text: Option<string>,
    style: Option<TextStyle>,
    visual: Visual,
    layout: Option<Layout>,
    effects: seq<Effect>)

  /** `kind` is the track's `type` ("video", "text", ...). */
  datatype RemotionTrack = RemotionTrack(id: string, kind: string, clips: seq<RemotionClip>)

  datatype VideoTimeline = VideoTimeline(project: ProjectSettings, timeline: seq<RemotionTrack>)

  // ---- Untyped timelines (assistant output, parsed JSON) ----

  /** A clip as parsed JSON: the frame fields may be missing or not numbers (`None`). */
  datatype RawClip = RawClip(
    id: string,
    startInFrames: Option<int>,
    durationInFrames: Option<int>,
    assetUrl: Option<string>,
    text: Option<string>,
    visual: Visual,
    effects: seq<Effect>)

  /** `clips` is `None` when the key is missing or falsy. */
  datatype RawTrack = RawTrack(id: string, kind: string, clips: Option<seq<RawClip>>)

  /** The `timeline` key: missing or falsy, present but not an array, or an array. */
  datatype RawTracks = Absent | NotAnArray | Tracks(tracks: seq<RawTrack>)

  datatype RawTimeline = RawTimeline(project: Option<ProjectSettings>, timeline: RawTracks)

  // ---- Rendering values ----

  /** A CSS `translate(x%, y%)`. */
  datatype Translate = Translate(xPercent: int, yPercent: int)

  datatype Axis = XAxis | YAxis

  /** A slide-in displacement of `pixels` along `axis` (sign included). */
  datatype SlideOffset = SlideOffset(axis: Axis, pixels: real)

  /** A text clip's transform: its anchor translate, then an optional slide displacement. */
  datatype TextTransform = TextTransform(anchor: Translate, slide: Option<SlideOffset>)

  // ---- JavaScript truthiness ----

  /** A present, non-empty string is truthy. */
  predicate Truthy(s: Option<string>) { s.Some? && s.value != "" }
}
