/** What processing a frame gives, in terms of its configuration and its samples alone. */
module FrameResults {
  import opened Results
  import opened FitGeometry
  import opened FrameCopy
  import opened FrameTransform
  import opened FrameProcessor

  // ---------- Crop, turn and flips ----------

  /** A rectangle of a plane. */
  datatype Area = Area(x: nat, y: nat, width: nat, height: nat)

  predicate HasArea(p: Plane, a: Area) {
    a.y + a.height <= |p| && forall k :: a.y <= k < a.y + a.height ==> a.x + a.width <= |p[k]|
  }

  /** The sample that belongs at row `r` and column `c` of an area turned clockwise. */
  function TurnedSample(p: Plane, a: Area, rotation: nat, r: nat, c: nat): int
    requires HasArea(p, a)
    requires if rotation == 90 || rotation == 270 then r < a.width && c < a.height else r < a.height && c < a.width
  {
    match rotation
    case 90 => p[a.y + a.height - 1 - c][a.x + r]
    case 180 => p[a.y + a.height - 1 - r][a.x + a.width - 1 - c]
    case 270 => p[a.y + c][a.x + a.width - 1 - r]
    case _ => p[a.y + r][a.x + c]
  }

  /** One side of a turned area. */
  function TurnedWidth(a: Area, rotation: nat): nat {
    if rotation == 90 || rotation == 270 then a.height else a.width
  }

  function TurnedHeight(a: Area, rotation: nat): nat {
    if rotation == 90 || rotation == 270 then a.width else a.height
  }

  function Reversed(reversed: bool, extent: nat, k: nat): (r: nat)
    requires k < extent
    ensures r < extent
  {
    if reversed then extent - 1 - k else k
  }

  /** A plane is an area of another, turned, then with its rows reversed each and then in their order. */
  predicate Oriented(p: Plane, a: Area, rotation: nat, mirrored: bool, upsideDown: bool, result: Plane)
    requires HasArea(p, a)
  {
    && Sized(result, TurnedWidth(a, rotation), TurnedHeight(a, rotation))
    && forall r, c :: 0 <= r < TurnedHeight(a, rotation) && 0 <= c < TurnedWidth(a, rotation) ==>
         result[r][c] == TurnedSample(p, a, rotation, Reversed(upsideDown, TurnedHeight(a, rotation), r),
                                      Reversed(mirrored, TurnedWidth(a, rotation), c))
  }

  function HalfArea(a: Area): Area {
    Area(a.x / 2, a.y / 2, a.width / 2, a.height / 2)
  }

  predicate OrientedFrame(f: Frame, a: Area, config: Config, result: Frame)
    requires WellFormed(f) && a.x + a.width <= f.size.width && a.y + a.height <= f.size.height
  {
    && Oriented(f.y, a, config.rotation, config.flipHorizontal, config.flipVertical, result.y)
    && Oriented(f.u, HalfArea(a), config.rotation, config.flipHorizontal, config.flipVertical, result.u)
    && Oriented(f.v, HalfArea(a), config.rotation, config.flipHorizontal, config.flipVertical, result.v)
  }

  /** The rectangle a configuration crops: a side of zero is the whole side. */
  function CropArea(f: Frame, config: Config): Area {
    Area(config.cropX, config.cropY,
         if config.crop.width == 0 then f.size.width else config.crop.width,
         if config.crop.height == 0 then f.size.height else config.crop.height)
  }

  lemma PicturesOriented(plan: Plan, p: Plane, result: Plane)
    requires Pictures(plan, p, result) && RightAngle(plan.rotation)
    requires HasArea(p, Area(plan.x, plan.y, plan.width, plan.height))
    ensures Oriented(p, Area(plan.x, plan.y, plan.width, plan.height), plan.rotation, plan.flipHorizontal,
                     plan.flipVertical, result)
  {
    var a := Area(plan.x, plan.y, plan.width, plan.height);
    var w, h := TurnedWidth(a, plan.rotation), TurnedHeight(a, plan.rotation);
    assert Sized(result, w, h);
    forall r, c | 0 <= r < h && 0 <= c < w
      ensures result[r][c] == TurnedSample(p, a, plan.rotation, Reversed(plan.flipVertical, h, r),
                                           Reversed(plan.flipHorizontal, w, c))
    {
      assert SampleAt(p, SourceSpot(plan, Spot(c, r)), result[r][c]);
      hide Pictures, SourceSpot, TurnedSample;
      SampleOriented(plan, p, a, r, c, result[r][c]);
    }
    hide Pictures, TurnedSample, Reversed, HasArea, TurnedWidth, TurnedHeight;
  }

  lemma SampleOriented(plan: Plan, p: Plane, a: Area, r: nat, c: nat, sample: int)
    requires a == Area(plan.x, plan.y, plan.width, plan.height) && RightAngle(plan.rotation) && HasArea(p, a)
    requires r < TurnedHeight(a, plan.rotation) && c < TurnedWidth(a, plan.rotation)
    requires SampleAt(p, SourceSpot(plan, Spot(c, r)), sample)
    ensures sample == TurnedSample(p, a, plan.rotation, Reversed(plan.flipVertical, TurnedHeight(a, plan.rotation), r),
                                   Reversed(plan.flipHorizontal, TurnedWidth(a, plan.rotation), c))
  {
    SpotIs(plan, r, c);
    hide Reversed;
    SampleTurned(p, a, plan.rotation, Reversed(plan.flipVertical, TurnedHeight(a, plan.rotation), r),
                 Reversed(plan.flipHorizontal, TurnedWidth(a, plan.rotation), c), SourceSpot(plan, Spot(c, r)), sample);
  }

  lemma SampleTurned(p: Plane, a: Area, rotation: nat, r: nat, c: nat, spot: Spot, sample: int)
    requires RightAngle(rotation) && HasArea(p, a) && SampleAt(p, spot, sample)
    requires r < TurnedHeight(a, rotation) && c < TurnedWidth(a, rotation)
    requires rotation == 0 ==> spot == Spot(a.x + c, a.y + r)
    requires rotation == 90 ==> spot == Spot(a.x + r, a.y + a.height - 1 - c)
    requires rotation == 180 ==> spot == Spot(a.x + a.width - 1 - c, a.y + a.height - 1 - r)
    requires rotation == 270 ==> spot == Spot(a.x + a.width - 1 - r, a.y + c)
    ensures sample == TurnedSample(p, a, rotation, r, c)
  {
  }

  lemma SpotIs(plan: Plan, r: nat, c: nat)
    requires RightAngle(plan.rotation) && r < OutHeight(plan) && c < OutWidth(plan)
    ensures var rr := Reversed(plan.flipVertical, OutHeight(plan), r);
            var cc := Reversed(plan.flipHorizontal, OutWidth(plan), c);
            && (plan.rotation == 0 ==> SourceSpot(plan, Spot(c, r)) == Spot(plan.x + cc, plan.y + rr))
            && (plan.rotation == 90 ==>
                  SourceSpot(plan, Spot(c, r)) == Spot(plan.x + rr, plan.y + plan.height - 1 - cc))
            && (plan.rotation == 180 ==>
                  SourceSpot(plan, Spot(c, r)) == Spot(plan.x + plan.width - 1 - cc, plan.y + plan.height - 1 - rr))
            && (plan.rotation == 270 ==>
                  SourceSpot(plan, Spot(c, r)) == Spot(plan.x + plan.width - 1 - rr, plan.y + cc))
  {
  }

  /** A frame that shows another through the plan of a configuration is oriented as the configuration says. */
  lemma ShowsOriented(f: Frame, config: Config, result: Frame)
    requires WellFormed(f) && ProperCrop(f.size, config) && RightAngle(config.rotation)
    requires Shows(PlanOf(f.size, config), f, result)
    ensures OrientedFrame(f, CropArea(f, config), config, result)
  {
    var plan := PlanOf(f.size, config);
    PicturesOriented(plan, f.y, result.y);
    PicturesOriented(Halved(plan), f.u, result.u);
    PicturesOriented(Halved(plan), f.v, result.v);
    hide Pictures, Oriented;
  }

  // ---------- The fit ----------

  /** A frame of the output's size with another in its middle, to the nearest even place, on the background. */
  predicate Framed(result: Frame, inner: Frame, out: Size, background: (int, int, int), x: nat, y: nat)
    requires WellFormed(inner)
  {
    && result.size == out && Centred(x, inner.size.width, out.width) && Centred(y, inner.size.height, out.height)
    && PlacedFrame(result, inner, x, y, background)
  }

  /** A frame of the output's size cut from the middle of another, to the nearest even place. */
  predicate CutOut(result: Frame, inner: Frame, out: Size, x: nat, y: nat) {
    && result.size == out && Centred(x, out.width, inner.size.width) && Centred(y, out.height, inner.size.height)
    && CutFrame(result, inner, x, y)
  }

  predicate Centred(before: nat, part: nat, whole: nat) {
    before % 2 == 0 && before + part <= whole && 0 <= (whole - part - before) - before <= 2
  }

  /** One side of a scaled frame is that of the output, and the other keeps the ratio to within two. */
  predicate KeepsRatio(frame: Size, scaled: Size, out: Size) {
    || (scaled.width == out.width
        && scaled.height * frame.width < frame.height * scaled.width + 2 * frame.width
        && frame.height * scaled.width < (scaled.height + 2) * frame.width)
    || (scaled.height == out.height
        && scaled.width * frame.height < frame.width * scaled.height + 2 * frame.height
        && frame.width * scaled.height < (scaled.width + 2) * frame.height)
  }

  /** The side that the ratio gives is below 2^32, whichever it is. */
  predicate SidesFit(frame: Size, out: Size) {
    frame.height * out.width < TWO_TO_THE_32 * frame.width && frame.width * out.height < TWO_TO_THE_32 * frame.height
  }

  /** Containing with a scaled frame of some size at some place. */
  predicate ContainsAt(config: Config, library: Library, current: Frame, out: Size, result: Frame,
                       size: Size, x: nat, y: nat)
  {
    && FitsIn(size, out) && KeepsRatio(current.size, size, out)
    && library.scale(current, size).Some? && WellFormed(library.scale(current, size).value)
    && (y * out.width < TWO_TO_THE_32 ==>
          Framed(result, library.scale(current, size).value, out, config.background, x, y))
  }

  /** Covering with a scaled frame of some size from some place on. */
  predicate CoversAt(library: Library, current: Frame, out: Size, result: Frame, size: Size, x: nat, y: nat) {
    && FitsIn(out, size) && (size.width == out.width || size.height == out.height)
    && (SidesFit(current.size, out) ==> KeepsRatio(current.size, size, out))
    && library.scale(current, size).Some? && WellFormed(library.scale(current, size).value)
    && (y * size.width < TWO_TO_THE_32 ==> CutOut(result, library.scale(current, size).value, out, x, y))
  }

  /** The size of the output: a side of zero is the frame's. */
  function Asked(current: Size, config: Config): Size {
    Size(if config.output.width == 0 then current.width else config.output.width,
         if config.output.height == 0 then current.height else config.output.height)
  }

  /** What the fit makes of a frame, if no offset loses bits. */
  ghost predicate FitAs(config: Config, library: Library, current: Frame, result: Frame)
    requires config.fit.Some?
  {
    var out := Asked(current.size, config);
    match config.fit.value
    case Stretch => if current.size == out then result == current else library.scale(current, out) == Some(result)
    case Contain =>
      exists size, x: nat, y: nat :: ContainsAt(config, library, current, out, result, size, x, y)
    case Cover =>
      exists size, x: nat, y: nat :: CoversAt(library, current, out, result, size, x, y)
  }

  lemma RatioKept(contain: bool, frame: Size, out: Size)
    requires Drawable(frame) && Drawable(out) && Free(contain, frame, out) < TWO_TO_THE_32
    ensures KeepsRatio(frame, Scaled(contain, frame, out), out)
  {
    AspectKept(contain, frame, out);
    hide Free, Quotient, ByWidth;
  }

  lemma ContainedAs(config: Config, library: Library, current: Frame, r: Outcome)
    requires config.fit == Some(Contain) && WellFormed(current) && Drawable(current.size) && Scales(library)
    requires In32(config.output) && In32(current.size)
    requires Fitted(config, library, current, r) && r.Produced?
    ensures FitAs(config, library, current, r.frame)
  {
    hide Scaled, Offset, PlacedFrame, CopyFrame, KeepsRatio, Background, ContainsAt;
    var out := OutputSize(current.size, config);
    var size := Scaled(true, current.size, out);
    var x, y := Offset(out.width, size.width), Offset(out.height, size.height);
    ContainParts(config, library, current, out, r);
    assert out == Asked(current.size, config);
    assert ContainsAt(config, library, current, out, r.frame, size, x, y);
  }

  lemma ContainParts(config: Config, library: Library, current: Frame, out: Size, r: Outcome)
    requires config.fit == Some(Contain) && WellFormed(current) && Drawable(current.size) && Scales(library)
    requires In32(out) && Drawable(out) && library.scale(current, Scaled(true, current.size, out)).Some?
    requires r.Produced?
    requires Composed(config, library, library.scale(current, Scaled(true, current.size, out)).value, out, r)
    ensures var size := Scaled(true, current.size, out);
            ContainsAt(config, library, current, out, r.frame, size, Offset(out.width, size.width),
                       Offset(out.height, size.height))
  {
    var size := Scaled(true, current.size, out);
    ContainFits(current.size, out);
    FreeContained(current.size, out);
    RatioKept(true, current.size, out);
    hide Scaled, Offset, PlacedFrame, CopyFrame, KeepsRatio, Background, Free, ByWidth, Quotient;
    OffsetCentres(out.width, size.width);
    OffsetCentres(out.height, size.height);
  }

  lemma CoveredAs(config: Config, library: Library, current: Frame, r: Outcome)
    requires config.fit == Some(Cover) && WellFormed(current) && Drawable(current.size) && Scales(library)
    requires In32(config.output) && In32(current.size)
    requires Fitted(config, library, current, r) && r.Produced?
    ensures FitAs(config, library, current, r.frame)
  {
    hide Scaled, Offset, CutFrame, CopyFrame, KeepsRatio, CoversAt;
    var out := OutputSize(current.size, config);
    var size := Scaled(false, current.size, out);
    var x, y := Offset(size.width, out.width), Offset(size.height, out.height);
    CoverParts(config, library, current, out, r);
    assert out == Asked(current.size, config);
    assert CoversAt(library, current, out, r.frame, size, x, y);
  }

  lemma CoverParts(config: Config, library: Library, current: Frame, out: Size, r: Outcome)
    requires config.fit == Some(Cover) && WellFormed(current) && Drawable(current.size) && Scales(library)
    requires In32(out) && Drawable(out) && library.scale(current, Scaled(false, current.size, out)).Some?
    requires Allocatable(Scaled(false, current.size, out)) && r.Produced?
    requires Composed(config, library, library.scale(current, Scaled(false, current.size, out)).value, out, r)
    ensures var size := Scaled(false, current.size, out);
            CoversAt(library, current, out, r.frame, size, Offset(size.width, out.width),
                     Offset(size.height, out.height))
  {
    var size := Scaled(false, current.size, out);
    CoverSides(current.size, out);
    if SidesFit(current.size, out) {
      FreeFits(current.size, out);
      RatioKept(false, current.size, out);
    }
    hide Scaled, Offset, CutFrame, CopyFrame, KeepsRatio, SidesFit;
    OffsetCentres(size.width, out.width);
    OffsetCentres(size.height, out.height);
  }

  lemma FreeFits(frame: Size, out: Size)
    requires Drawable(frame) && Drawable(out) && SidesFit(frame, out)
    ensures Free(false, frame, out) < TWO_TO_THE_32
  {
    QuotientBelow(frame.height, out.width, frame.width);
    QuotientBelow(frame.width, out.height, frame.height);
    hide Quotient;
  }

  lemma QuotientBelow(other: nat, target: nat, side: nat)
    requires side != 0 && other * target < TWO_TO_THE_32 * side
    ensures Quotient(other, target, side) < TWO_TO_THE_32
  {
    QuotientBounds(other, target, side);
    hide Quotient;
    if TWO_TO_THE_32 <= Quotient(other, target, side) {
      MonotoneProduct(TWO_TO_THE_32, Quotient(other, target, side), side);
    }
  }

  lemma CoverSides(frame: Size, out: Size)
    requires Drawable(frame) && Drawable(out)
    ensures var size := Scaled(false, frame, out); size.width == out.width || size.height == out.height
  {
    hide Quotient;
  }

  lemma FittedAs(config: Config, library: Library, current: Frame, r: Outcome)
    requires config.fit.Some? && WellFormed(current) && Drawable(current.size) && Scales(library)
    requires In32(config.output) && In32(current.size)
    requires Fitted(config, library, current, r) && r.Produced?
    ensures FitAs(config, library, current, r.frame)
  {
    match config.fit.value
    case Stretch =>
    case Contain => ContainedAs(config, library, current, r);
    case Cover => CoveredAs(config, library, current, r);
  }

  // ---------- The whole operation ----------

  /** The result is the cropped source, oriented and fitted as the configuration says. */
  ghost predicate ResultOf(source: Frame, config: Config, library: Library, result: Frame)
    requires WellFormed(source) && ProperCrop(source.size, config) && config.fit.Some?
  {
    exists current ::
      && WellFormed(current) && OrientedFrame(source, CropArea(source, config), config, current)
      && FitAs(config, library, current, result)
  }

  lemma ProducedAs(source: Frame, config: Config, library: Library, r: Outcome)
    requires WellFormed(source) && Scales(library) && config.fit.Some? && RightAngle(config.rotation)
    requires In32(source.size) && In32(config.crop) && In32(config.output) && ProperCrop(source.size, config)
    requires config.cropY * source.size.width < TWO_TO_THE_32
    requires Processed(source, config, library, r) && r.Produced?
    ensures ResultOf(source, config, library, r.frame)
  {
    var current :| FromTo(source, config, library, current, r);
    ShownWell(source, PlanOf(source.size, config), current);
    ShowsOriented(source, config, current);
    hide Shows, Fitted, FitAs, OrientedFrame;
    FittedAs(config, library, current, r);
  }

  method ProcessFrame(source: Frame, config: Config, library: Library) returns (r: Outcome)
    requires WellFormed(source) && Scales(library)
    requires In32(source.size) && In32(config.crop) && In32(config.output)
    requires config.cropX < TWO_TO_THE_32 && config.cropY < TWO_TO_THE_32
    ensures r == Refused(NOT_SUPPORTED) <==> !config.onCpu
    ensures config.onCpu && (!RightAngle(config.rotation) || config.fit == None || !ProperCrop(source.size, config)) ==>
              r == Refused(INVALID_ARGUMENT)
    ensures config.onCpu && RightAngle(config.rotation) && config.fit.Some? && ProperCrop(source.size, config) ==>
              if CropSize(source.size, config).width > 0x7FFF_FFFF || CropSize(source.size, config).height > 0x7FFF_FFFF
                 || !CropWorks(library, source, config)
              then r == Refused(INTERNAL)
              else Processed(source, config, library, r)
    // From the configuration alone: the crop, turned clockwise, mirrored, turned upside down, and fitted.
    ensures r.Produced? && config.cropY * source.size.width < TWO_TO_THE_32 ==>
              ProperCrop(source.size, config) && config.fit.Some? && ResultOf(source, config, library, r.frame)
  {
    if !config.onCpu {
      return Refused(NOT_SUPPORTED);
    }
    if !RightAngle(config.rotation) || config.fit == None {
      return Refused(INVALID_ARGUMENT);
    }
    var proper := CheckCrop(source.size, config);
    if !proper {
      return Refused(INVALID_ARGUMENT);
    }
    if !Allocatable(CropSize(source.size, config)) {
      return Refused(INTERNAL);
    }
    hide Shows, Fitted, WellFormed, Scales, PlanWorks, ResultOf;
    var plan := PlanOf(source.size, config);
    var current := Transform(library, source, plan);
    if current == None {
      return Refused(INTERNAL);
    }
    ShownWell(CropFrame(source, plan.x, plan.y, CropSize(source.size, config)), Uncropped(plan), current.value);
    r := FitFrame(config, library, current.value);
    Refusals(config, library, current.value, r);
    assert FromTo(source, config, library, current.value, r);
    if r.Produced? && config.cropY * source.size.width < TWO_TO_THE_32 {
      ProducedAs(source, config, library, r);
    }
  }

  /** The operations of the first half work on this frame. */
  predicate CropWorks(library: Library, source: Frame, config: Config)
    requires WellFormed(source) && ProperCrop(source.size, config)
  {
    var plan := PlanOf(source.size, config);
    PlanWorks(library, source, CropFrame(source, plan.x, plan.y, Size(plan.width, plan.height)), plan)
  }

  /** The source seen through the plan, fitted to the output. */
  ghost predicate Processed(source: Frame, config: Config, library: Library, r: Outcome)
    requires config.fit.Some? && Scales(library) && WellFormed(source)
  {
    exists current :: FromTo(source, config, library, current, r)
  }

  ghost predicate FromTo(source: Frame, config: Config, library: Library, current: Frame, r: Outcome)
    requires config.fit.Some? && Scales(library) && WellFormed(source)
  {
    var plan := PlanOf(source.size, config);
    && plan.x + plan.width <= source.size.width && plan.y + plan.height <= source.size.height
    && Shows(Uncropped(plan), CropFrame(source, plan.x, plan.y, Size(plan.width, plan.height)), current)
    && (RowsFit(plan.y, source.size.width) ==> Shows(plan, source, current))
    && Drawable(current.size) && Fitted(config, library, current, r)
  }

  lemma Refusals(config: Config, library: Library, current: Frame, r: Outcome)
    requires config.fit.Some? && WellFormed(current) && Drawable(current.size) && Scales(library)
    requires Fitted(config, library, current, r)
    ensures r.Refused? ==> r.code == INVALID_ARGUMENT || r.code == INTERNAL
  {
  }

  /** Every operation that is asked for counts: if it never works, nothing is produced; if all work, all is. */
  lemma LibraryCounts(library: Library, source: Frame, cropped: Frame, plan: Plan)
    requires WellFormed(cropped)
    ensures (forall f :: !library.works(Copying, f)) ==> !PlanWorks(library, source, cropped, plan)
    ensures plan.rotation != 0 && (forall f :: !library.works(Turning(plan.rotation), f)) ==>
              !PlanWorks(library, source, cropped, plan)
    ensures plan.flipVertical && (forall f :: !library.works(Turning(180), f)) ==>
              !PlanWorks(library, source, cropped, plan)
    ensures (plan.flipHorizontal || plan.flipVertical) && (forall f :: !library.works(Mirroring, f)) ==>
              !PlanWorks(library, source, cropped, plan)
    ensures (forall o, f :: library.works(o, f)) ==> PlanWorks(library, source, cropped, plan)
  {
    hide RotateFrame, MirrorFrame;
  }

  /** And so for the fit: without scaling or without copying there is an internal error where they are needed. */
  lemma FitCounts(config: Config, library: Library, current: Frame, r: Outcome)
    requires config.fit.Some? && WellFormed(current) && Drawable(current.size) && Scales(library)
    requires Drawable(Asked(current.size, config)) && Fitted(config, library, current, r)
    ensures config.fit != Some(Stretch) && (forall f, size :: library.scale(f, size) == None) ==>
              r == Refused(INTERNAL)
    ensures Asked(current.size, config) != current.size && (forall f, size :: library.scale(f, size) == None) ==>
              r == Refused(INTERNAL)
    ensures config.fit != Some(Stretch) && (forall f :: !library.works(Copying, f)) ==>
              r == Refused(INTERNAL) || r == Stray
  {
    hide Scaled, Contained, Covered, Offset;
  }

  // ---------- Single settings ----------

  /** Without scaling the result is the oriented crop itself. */
  lemma OrientedOnly(source: Frame, config: Config, library: Library, result: Frame)
    requires WellFormed(source) && ProperCrop(source.size, config)
    requires Unscaled(config) && ResultOf(source, config, library, result)
    ensures OrientedFrame(source, CropArea(source, config), config, result)
  {
    var current :|
      && WellFormed(current) && OrientedFrame(source, CropArea(source, config), config, current)
      && FitAs(config, library, current, result);
    hide OrientedFrame;
    assert result == current;
  }

  /** The sides of the output as they come. */
  predicate Unscaled(config: Config) {
    config.fit == Some(Stretch) && config.output == Size(0, 0)
  }

  /** The whole frame as well. */
  predicate Uncut(config: Config) {
    Unscaled(config) && config.cropX == 0 && config.cropY == 0 && config.crop == Size(0, 0)
  }

  lemma SampleOf(p: Plane, a: Area, rotation: nat, mirrored: bool, upsideDown: bool, result: Plane, r: nat, c: nat)
    requires HasArea(p, a) && Oriented(p, a, rotation, mirrored, upsideDown, result)
    requires r < TurnedHeight(a, rotation) && c < TurnedWidth(a, rotation)
    ensures Sized(result, TurnedWidth(a, rotation), TurnedHeight(a, rotation))
    ensures result[r][c] == TurnedSample(p, a, rotation, Reversed(upsideDown, TurnedHeight(a, rotation), r),
                                         Reversed(mirrored, TurnedWidth(a, rotation), c))
  {
    hide TurnedSample, Reversed, HasArea;
  }

  /** With only a crop: the rectangle from its corner on. */
  lemma OnlyCropped(source: Frame, config: Config, library: Library, result: Frame, r: nat, c: nat)
    requires WellFormed(source) && ProperCrop(source.size, config)
    requires Unscaled(config) && ResultOf(source, config, library, result)
    requires config.rotation == 0 && !config.flipHorizontal && !config.flipVertical
    requires r < CropArea(source, config).height && c < CropArea(source, config).width
    ensures Sized(result.y, CropArea(source, config).width, CropArea(source, config).height)
    ensures result.y[r][c] == source.y[config.cropY + r][config.cropX + c]
  {
    OrientedOnly(source, config, library, result);
    hide ResultOf;
    SampleOf(source.y, CropArea(source, config), 0, false, false, result.y, r, c);
  }

  /** With only a horizontal flip every row is reversed. */
  lemma OnlyMirrored(source: Frame, config: Config, library: Library, result: Frame, r: nat, c: nat)
    requires WellFormed(source) && ProperCrop(source.size, config)
    requires Uncut(config) && ResultOf(source, config, library, result)
    requires config.rotation == 0 && config.flipHorizontal && !config.flipVertical
    requires r < source.size.height && c < source.size.width
    ensures Sized(result.y, source.size.width, source.size.height)
    ensures result.y[r][c] == source.y[r][source.size.width - 1 - c]
  {
    OrientedOnly(source, config, library, result);
    hide ResultOf;
    SampleOf(source.y, CropArea(source, config), 0, true, false, result.y, r, c);
  }

  /** With only a vertical flip the rows come in reverse order. */
  lemma OnlyUpsideDown(source: Frame, config: Config, library: Library, result: Frame, r: nat, c: nat)
    requires WellFormed(source) && ProperCrop(source.size, config)
    requires Uncut(config) && ResultOf(source, config, library, result)
    requires config.rotation == 0 && !config.flipHorizontal && config.flipVertical
    requires r < source.size.height && c < source.size.width
    ensures Sized(result.y, source.size.width, source.size.height)
    ensures result.y[r][c] == source.y[source.size.height - 1 - r][c]
  {
    OrientedOnly(source, config, library, result);
    hide ResultOf;
    SampleOf(source.y, CropArea(source, config), 0, false, true, result.y, r, c);
  }

  /** With only a quarter turn the left column, from the bottom up, becomes the top row; and back for three. */
  lemma OnlyTurned(source: Frame, config: Config, library: Library, result: Frame, r: nat, c: nat)
    requires WellFormed(source) && ProperCrop(source.size, config)
    requires Uncut(config) && ResultOf(source, config, library, result)
    requires (config.rotation == 90 || config.rotation == 270) && !config.flipHorizontal && !config.flipVertical
    requires r < source.size.width && c < source.size.height
    ensures Sized(result.y, source.size.height, source.size.width)
    ensures config.rotation == 90 ==> result.y[r][c] == source.y[source.size.height - 1 - c][r]
    ensures config.rotation == 270 ==> result.y[r][c] == source.y[c][source.size.width - 1 - r]
  {
    OrientedOnly(source, config, library, result);
    hide ResultOf;
    SampleOf(source.y, CropArea(source, config), config.rotation, false, false, result.y, r, c);
  }
}
