/** Text positioning (frontend/src/utils/positioning.ts): anchor translates, unit conversion,
    range validation and responsive scaling. CSS strings are modelled as structured values. */
module Positioning {
  import opened Wrappers
  import opened TimelineTypes

  /** A CSS length such as `50%` or `120px`. */
  datatype CssLength = CssLength(value: real, unit: PositionUnit)

  /** `CalculatedPosition`; `maxWidth` and `lineHeight` are `None` when the key is not set. */
  datatype CalculatedPosition = CalculatedPosition(
    left: CssLength,
    top: CssLength,
    transform: Translate,
    textAlign: TextAlign,
    maxWidth: Option<CssLength>,
    wordWrap: WordWrap,
    lineHeight: Option<real>)

  const DefaultPosition := Position(50.0, 50.0, Some(Percent), Some(Center))

  /** The `translate(x, y)` each anchor selects; unrecognised anchors take the centre's. */
  function AnchorTranslate(anchor: Anchor): Translate
  {
    match anchor
    case TopLeft => Translate(0, 0)
    case TopCenter => Translate(-50, 0)
    case TopRight => Translate(-100, 0)
    case CenterLeft => Translate(0, -50)
    case Center => Translate(-50, -50)
    case CenterRight => Translate(-100, -50)
    case BottomLeft => Translate(0, -100)
    case BottomCenter => Translate(-50, -100)
    case BottomRight => Translate(-100, -100)
    case OtherAnchor(_) => Translate(-50, -50)
  }

  /** JavaScript truthiness of an optional number (NaN is not modelled). */
  predicate TruthyNumber(v: Option<real>) { v.Some? && v.value != 0.0 }

  /** `unit || '%'`: a missing unit and an empty unit name both fall back to `%`. */
  function UnitOrPercent(unit: Option<PositionUnit>): (r: PositionUnit)
    ensures r == Percent <==> unit.None? || unit.value == Percent || unit.value == OtherUnit("")
    ensures r != Percent ==> unit == Some(r)
  {
    match unit
    case None => Percent
    case Some(OtherUnit(name)) => if name == "" then Percent else OtherUnit(name)
    case Some(u) => u
  }

  /** `calculatePosition`. */
  function CalculatePosition(position: Option<Position>, layout: Option<Layout>): CalculatedPosition
  {
    var pos := position.GetOr(DefaultPosition);
    var unit := UnitOrPercent(pos.unit);
    var anchor := pos.anchor.GetOr(Center);
    var textAlign := if layout.Some? then layout.value.textAlign.GetOr(AlignCenter) else AlignCenter;
    var wordWrap := if layout.Some? then layout.value.wordWrap.GetOr(WrapNormal) else WrapNormal;
    var maxWidth :=
      if layout.Some? && TruthyNumber(layout.value.maxWidth)
      then Some(CssLength(layout.value.maxWidth.value, UnitOrPercent(layout.value.maxWidthUnit)))
      else None;
    var lineHeight := if layout.Some? && TruthyNumber(layout.value.lineHeight) then layout.value.lineHeight else None;
    CalculatedPosition(CssLength(pos.x, unit), CssLength(pos.y, unit), AnchorTranslate(anchor),
                       textAlign, maxWidth, wordWrap, lineHeight)
  }

  /** Without a position the text is centred: left and top at 50% and shifted back by half its size. */
  lemma DefaultIsCentred(layout: Option<Layout>)
    ensures CalculatePosition(None, layout).left == CssLength(50.0, Percent)
    ensures CalculatePosition(None, layout).top == CssLength(50.0, Percent)
    ensures CalculatePosition(None, layout).transform == Translate(-50, -50)
  {
  }

  /** The horizontal shift depends only on the anchor's column (left 0, centre -50%, right -100%) and the
      vertical shift only on its row (top 0, centre -50%, bottom -100%); an unknown anchor is centred. */
  lemma AnchorGrid(p: Position, layout: Option<Layout>)
    ensures var a := p.anchor.GetOr(Center);
            var t := CalculatePosition(Some(p), layout).transform;
            && (a in {TopLeft, CenterLeft, BottomLeft} ==> t.xPercent == 0)
            && (a in {TopCenter, Center, BottomCenter} || a.OtherAnchor? ==> t.xPercent == -50)
            && (a in {TopRight, CenterRight, BottomRight} ==> t.xPercent == -100)
            && (a in {TopLeft, TopCenter, TopRight} ==> t.yPercent == 0)
            && (a in {CenterLeft, Center, CenterRight} || a.OtherAnchor? ==> t.yPercent == -50)
            && (a in {BottomLeft, BottomCenter, BottomRight} ==> t.yPercent == -100)
    ensures p.anchor == None ==> CalculatePosition(Some(p), layout).transform == Translate(-50, -50)
    ensures CalculatePosition(Some(p), layout).left == CssLength(p.x, UnitOrPercent(p.unit))
    ensures CalculatePosition(Some(p), layout).top == CssLength(p.y, UnitOrPercent(p.unit))
  {
  }

  /** Layout defaults: centred text and normal wrapping unless set; `maxWidth` (in % unless a unit
      is given) and `lineHeight` appear exactly when the layout gives a non-zero value. */
  lemma LayoutDefaults(position: Option<Position>, layout: Option<Layout>)
    ensures var r := CalculatePosition(position, layout);
            && (layout == None || layout.value.textAlign == None ==> r.textAlign == AlignCenter)
            && (layout == None || layout.value.wordWrap == None ==> r.wordWrap == WrapNormal)
            && (r.maxWidth.Some? <==> layout.Some? && layout.value.maxWidth.Some? && layout.value.maxWidth.value != 0.0)
            && (r.maxWidth.Some? ==> r.maxWidth.value.value == layout.value.maxWidth.value)
            && (r.maxWidth.Some? && layout.value.maxWidthUnit == None ==> r.maxWidth.value.unit == Percent)
            && (r.maxWidth.Some? ==> r.maxWidth.value.unit == UnitOrPercent(layout.value.maxWidthUnit))
            && (r.lineHeight.Some? <==> layout.Some? && layout.value.lineHeight.Some? && layout.value.lineHeight.value != 0.0)
            && (r.lineHeight.Some? ==> r.lineHeight == layout.value.lineHeight)
  {
  }

  // ---- convertUnit ----

  /** First switch of `convertUnit`: the value in pixels (viewport assumed 1920x1080). */
  function ToPixels(value: real, unit: PositionUnit, containerSize: real): real
  {
    match unit
    case Px => value
    case Percent => (value / 100.0) * containerSize
    case Vw => (value / 100.0) * 1920.0
    case Vh => (value / 100.0) * 1080.0
    case OtherUnit(_) => value
  }

  /** Second switch of `convertUnit`: a pixel value in the target unit. */
  function FromPixels(valueInPx: real, unit: PositionUnit, containerSize: real): real
    requires unit == Percent ==> containerSize != 0.0
  {
    match unit
    case Px => valueInPx
    case Percent => (valueInPx / containerSize) * 100.0
    case Vw => (valueInPx / 1920.0) * 100.0
    case Vh => (valueInPx / 1080.0) * 100.0
    case OtherUnit(_) => valueInPx
  }

  /** The container size divides only when converting into %, and JavaScript then yields
      Infinity or NaN for a zero size; the model needs a non-zero size there. */
  predicate ConversionDefined(fromUnit: PositionUnit, toUnit: PositionUnit, containerSize: real)
  {
    fromUnit != toUnit && toUnit == Percent ==> containerSize != 0.0
  }

  /** `convertUnit`. */
  function ConvertUnit(value: real, fromUnit: PositionUnit, toUnit: PositionUnit, containerSize: real): real
    requires ConversionDefined(fromUnit, toUnit, containerSize)
  {
    if fromUnit == toUnit then value
    else FromPixels(ToPixels(value, fromUnit, containerSize), toUnit, containerSize)
  }

  lemma PixelsRoundTrip(value: real, unit: PositionUnit, containerSize: real)
    requires containerSize != 0.0
    ensures FromPixels(ToPixels(value, unit, containerSize), unit, containerSize) == value
    ensures ToPixels(FromPixels(value, unit, containerSize), unit, containerSize) == value
  {
    if unit == Percent {
      var c := containerSize;
      assert (value / 100.0) * c / c == value / 100.0;
      assert (value / c) * 100.0 / 100.0 == value / c;
    }
  }

  /** Converting to the same unit is the identity, and for a non-empty container converting there
      and back returns the original value (exactly, in real arithmetic). */
  lemma ConvertUnitRoundTrip(value: real, a: PositionUnit, b: PositionUnit, containerSize: real)
    requires containerSize > 0.0
    ensures ConvertUnit(value, a, a, containerSize) == value
    ensures ConvertUnit(ConvertUnit(value, a, b, containerSize), b, a, containerSize) == value
  {
    if a != b {
      var px := ToPixels(value, a, containerSize);
      PixelsRoundTrip(px, b, containerSize);
      PixelsRoundTrip(value, a, containerSize);
    }
  }

  // ---- validatePosition ----

  datatype PositionError = XPercentOutOfRange | YPercentOutOfRange | XPixelsOutOfRange(limit: real) | YPixelsOutOfRange(limit: real)

  datatype PositionCheck = PositionCheck(isValid: bool, errors: seq<PositionError>)

  /** `validatePosition`: the errors in the order they are pushed. */
  function ValidatePosition(position: Position, containerWidth: real, containerHeight: real): PositionCheck
  {
    var unit := UnitOrPercent(position.unit);
    var errors :=
      if unit == Percent then
        (if position.x < 0.0 || position.x > 100.0 then [XPercentOutOfRange] else []) +
        (if position.y < 0.0 || position.y > 100.0 then [YPercentOutOfRange] else [])
      else if unit == Px then
        (if position.x < 0.0 || position.x > containerWidth then [XPixelsOutOfRange(containerWidth)] else []) +
        (if position.y < 0.0 || position.y > containerHeight then [YPixelsOutOfRange(containerHeight)] else [])
      else [];
    PositionCheck(|errors| == 0, errors)
  }

  /** `isValid` holds exactly when there are no errors; a % position (the default unit) is valid iff both
      coordinates lie in [0, 100], a px position iff they lie inside the container, and vw, vh or
      other units are always valid. */
  lemma ValidatePositionMeaning(position: Position, containerWidth: real, containerHeight: real)
    ensures var r := ValidatePosition(position, containerWidth, containerHeight);
            && (r.isValid <==> r.errors == [])
            && (UnitOrPercent(position.unit) == Percent ==>
                  (r.isValid <==> 0.0 <= position.x <= 100.0 && 0.0 <= position.y <= 100.0))
            && (position.unit == Some(Px) ==>
                  (r.isValid <==> 0.0 <= position.x <= containerWidth && 0.0 <= position.y <= containerHeight))
            && (UnitOrPercent(position.unit) !in {Percent, Px} ==> r.isValid)
            && |r.errors| <= 2
  {
  }

  // ---- createResponsivePosition ----

  /** `createResponsivePosition` divides by the original size unless the unit is exactly `%`. */
  function CreateResponsivePosition(position: Position, targetWidth: real, targetHeight: real,
                                    originalWidth: real, originalHeight: real): Position
    requires position.unit != Some(Percent) ==> originalWidth != 0.0 && originalHeight != 0.0
  {
    if position.unit == Some(Percent) then position
    else
      var xRatio := targetWidth / originalWidth;
      var yRatio := targetHeight / originalHeight;
      position.(x := position.x * xRatio, y := position.y * yRatio)
  }

  /** Percentages are kept as they are; any other position (also one whose unit is missing) has its
      coordinates scaled by target/original and keeps unit and anchor; scaling to the original
      size is the identity. */
  lemma ResponsiveScaling(position: Position, targetWidth: real, targetHeight: real,
                          originalWidth: real, originalHeight: real)
    requires originalWidth != 0.0 && originalHeight != 0.0
    ensures var r := CreateResponsivePosition(position, targetWidth, targetHeight, originalWidth, originalHeight);
            && (position.unit == Some(Percent) ==> r == position)
            && (position.unit != Some(Percent) ==>
                  && r.x * originalWidth == position.x * targetWidth
                  && r.y * originalHeight == position.y * targetHeight
                  && r.unit == position.unit && r.anchor == position.anchor)
    ensures CreateResponsivePosition(position, originalWidth, originalHeight, originalWidth, originalHeight) == position
  {
  }
}
