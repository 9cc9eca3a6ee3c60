/** Processing of one decoded frame on the CPU: crop, turn, flip, and fit to the output size. */
module FrameProcessor {
  import opened Results
  import opened FitGeometry
  import opened FrameCopy
  import opened FrameTransform

  const MAX_SIDE: nat := 0x7FFF_FFFF

  datatype Frame = Frame(size: Size, y: Plane, u: Plane, v: Plane)

  datatype Fit = Stretch | Contain | Cover

  /** A requested processing plan; a crop or output side of zero asks for the default. */
  datatype Config = Config(
    onCpu: bool,
    rotation: nat,
    fit: Option<Fit>,
    cropX: nat,
    cropY: nat,
    crop: Size,
    flipHorizontal: bool,
    flipVertical: bool,
    output: Size,
    background: (int, int, int))

  /** `Stray` is a copy that would read outside the frame it copies from. */
  datatype Outcome = Refused(code: Code) | Produced(frame: Frame) | Stray

  /** What the pixel library is asked to do with a frame, beside scaling. */
  datatype Operation = Copying | Turning(rotation: nat) | Mirroring

  /**
   * The pixel library: scaling gives a frame or fails, and each other operation on a frame works or
   * fails.
   */
  datatype Library = Library(scale: (Frame, Size) -> Option<Frame>, works: (Operation, Frame) -> bool)

  predicate WellFormed(f: Frame) {
    && Sized(f.y, f.size.width, f.size.height)
    && Sized(f.u, f.size.width / 2, f.size.height / 2) && Sized(f.v, f.size.width / 2, f.size.height / 2)
  }

  predicate In32(s: Size) {
    s.width < TWO_TO_THE_32 && s.height < TWO_TO_THE_32
  }

  predicate Allocatable(s: Size) {
    Drawable(s) && s.width <= MAX_SIDE && s.height <= MAX_SIDE
  }

  function OrElse(side: nat, otherwise: nat): nat {
    if side == 0 then otherwise else side
  }

  // ---------- The crop guard ----------

  /** The size that is to be cropped. */
  function CropSize(source: Size, config: Config): Size {
    Size(OrElse(config.crop.width, source.width), OrElse(config.crop.height, source.height))
  }

  /** An even, nonempty rectangle inside the frame. */
  predicate ProperCrop(source: Size, config: Config) {
    var size := CropSize(source, config);
    && Drawable(size) && config.cropX % 2 == 0 && config.cropY % 2 == 0
    && config.cropX + size.width <= source.width && config.cropY + size.height <= source.height
  }

  /** The guard, with the unsigned subtractions of the source, accepts exactly the proper rectangles. */
  method CheckCrop(source: Size, config: Config) returns (ok: bool)
    requires In32(source) && In32(config.crop) && config.cropX < TWO_TO_THE_32 && config.cropY < TWO_TO_THE_32
    ensures ok <==> ProperCrop(source, config)
  {
    var width := OrElse(config.crop.width, source.width);
    var height := OrElse(config.crop.height, source.height);
    if !EvenNonzero(width) || !EvenNonzero(height) || config.cropX % 2 == 1 || config.cropY % 2 == 1
       || config.cropX > Sub32(source.width, Min(source.width, width))
       || config.cropY > Sub32(source.height, Min(source.height, height))
       || width > Sub32(source.width, config.cropX) || height > Sub32(source.height, config.cropY)
    {
      return false;
    }
    return true;
  }

  // ---------- Frame operations ----------

  function PlanOf(source: Size, config: Config): Plan {
    var size := CropSize(source, config);
    Plan(config.cropX, config.cropY, size.width, size.height, config.rotation,
         config.flipHorizontal, config.flipVertical)
  }

  /** The copy of the overlap of two frames from given positions on. */
  function CopyFrame(from: Frame, to: Frame, fromX: nat, fromY: nat, toX: nat, toY: nat): (r: Frame)
    requires WellFormed(from) && WellFormed(to)
    requires fromX <= from.size.width && fromY <= from.size.height && toX <= to.size.width && toY <= to.size.height
    ensures r.size == to.size && WellFormed(r)
  {
    var width := Min(from.size.width - fromX, to.size.width - toX);
    var height := Min(from.size.height - fromY, to.size.height - toY);
    var luma := Block(fromX, fromY, toX, toY, width, height);
    Frame(to.size, CopyPlane(from.y, from.size.width, to.y, to.size.width, luma),
          CopyPlane(from.u, from.size.width / 2, to.u, to.size.width / 2, HalfBlock(luma)),
          CopyPlane(from.v, from.size.width / 2, to.v, to.size.width / 2, HalfBlock(luma)))
  }

  function HalfBlock(b: Block): Block {
    Block(b.fromX / 2, b.fromY / 2, b.toX / 2, b.toY / 2, b.width / 2, b.height / 2)
  }

  /** A new frame of one colour. */
  function Background(size: Size, samples: (int, int, int)): (r: Frame)
    ensures r.size == size && WellFormed(r)
  {
    Frame(size, Constant(size.width, size.height, samples.0), Constant(size.width / 2, size.height / 2, samples.1),
          Constant(size.width / 2, size.height / 2, samples.2))
  }

  function CropFrame(f: Frame, x: nat, y: nat, size: Size): (r: Frame)
    requires WellFormed(f) && x + size.width <= f.size.width && y + size.height <= f.size.height
    ensures r.size == size && WellFormed(r)
  {
    CopyFrame(f, Background(size, (0, 0, 0)), x, y, 0, 0)
  }

  function RotateFrame(f: Frame, rotation: nat): (r: Frame)
    requires WellFormed(f)
    ensures r.size == (if Swaps(rotation) then Size(f.size.height, f.size.width) else f.size) && WellFormed(r)
  {
    Frame(if Swaps(rotation) then Size(f.size.height, f.size.width) else f.size,
          Turned(f.y, f.size.width, f.size.height, rotation),
          Turned(f.u, f.size.width / 2, f.size.height / 2, rotation),
          Turned(f.v, f.size.width / 2, f.size.height / 2, rotation))
  }

  function MirrorFrame(f: Frame): (r: Frame)
    requires WellFormed(f)
    ensures r.size == f.size && WellFormed(r)
  {
    Frame(f.size, Mirrored(f.y, f.size.width, f.size.height), Mirrored(f.u, f.size.width / 2, f.size.height / 2),
          Mirrored(f.v, f.size.width / 2, f.size.height / 2))
  }

  /** Every plane of the result shows the source through the plan, chroma through the halved plan. */
  predicate Shows(plan: Plan, source: Frame, result: Frame) {
    && result.size == Size(OutWidth(plan), OutHeight(plan)) && WellFormed(result)
    && Pictures(plan, source.y, result.y)
    && Pictures(Halved(plan), source.u, result.u) && Pictures(Halved(plan), source.v, result.v)
  }

  /** Halving a position and a stride loses no bits that the full product keeps. */
  lemma HalfRowsFit(row: nat, stride: nat)
    requires RowsFit(row, stride)
    ensures RowsFit(row / 2, stride / 2)
  {
    MonotoneProduct(row / 2, row, stride / 2);
    MonotoneProduct(stride / 2, stride, row);
  }

  lemma CroppedPlane(p: Plane, width: nat, to: Plane, x: nat, y: nat, w: nat, h: nat)
    requires Sized(p, width, |p|) && Sized(to, w, h) && x + w <= width && y + h <= |p| && RowsFit(y, width)
    ensures CopyPlane(p, width, to, w, Block(x, y, 0, 0, w, h)) == Window(p, x, y, w, h)
  {
    var b := Block(x, y, 0, 0, w, h);
    CopyExact(p, width, to, w, b);
    var r := CopyPlane(p, width, to, w, b);
    forall k | 0 <= k < h
      ensures r[k] == Window(p, x, y, w, h)[k]
    {
      assert forall c :: 0 <= c < w ==> r[k][c] == BlockSample(p, to, b, k, c);
    }
  }

  /** A crop shows the source through its plan, if the offset of its first row loses no bits. */
  lemma CropShows(source: Frame, plan: Plan)
    requires WellFormed(source) && plan.rotation == 0 && !plan.flipHorizontal && !plan.flipVertical
    requires plan.x + plan.width <= source.size.width && plan.y + plan.height <= source.size.height
    requires RowsFit(plan.y, source.size.width)
    ensures Shows(plan, source, CropFrame(source, plan.x, plan.y, Size(plan.width, plan.height)))
  {
    hide Pictures, RowsFit;
    var blank := Background(Size(plan.width, plan.height), (0, 0, 0));
    var half := Halved(plan);
    HalfRowsFit(plan.y, source.size.width);
    CroppedPlane(source.y, source.size.width, blank.y, plan.x, plan.y, plan.width, plan.height);
    CroppedPlane(source.u, source.size.width / 2, blank.u, half.x, half.y, half.width, half.height);
    CroppedPlane(source.v, source.size.width / 2, blank.v, half.x, half.y, half.width, half.height);
    CropPictures(plan, source.y);
    CropPictures(half, source.u);
    CropPictures(half, source.v);
  }

  /** The same plan on a frame that is already cropped. */
  function Uncropped(plan: Plan): Plan {
    plan.(x := 0, y := 0)
  }

  lemma WholePictures(p: Plane, width: nat, height: nat)
    requires Sized(p, width, height)
    ensures Pictures(Plan(0, 0, width, height, 0, false, false), p, p)
  {
  }

  lemma WholeShows(f: Frame)
    requires WellFormed(f)
    ensures Shows(Plan(0, 0, f.size.width, f.size.height, 0, false, false), f, f)
  {
    hide Pictures;
    WholePictures(f.y, f.size.width, f.size.height);
    WholePictures(f.u, f.size.width / 2, f.size.height / 2);
    WholePictures(f.v, f.size.width / 2, f.size.height / 2);
  }

  function CropOnly(plan: Plan): Plan {
    plan.(rotation := 0, flipHorizontal := false, flipVertical := false)
  }

  lemma SpotCropped(plan: Plan, s: Spot)
    ensures SourceSpot(plan, s) == SourceSpot(CropOnly(plan), SourceSpot(Uncropped(plan), s))
  {
  }

  lemma PicturesCropped(plan: Plan, source: Plane, cropped: Plane, result: Plane)
    requires Pictures(CropOnly(plan), source, cropped) && Pictures(Uncropped(plan), cropped, result)
    ensures Pictures(plan, source, result)
  {
    hide SourceSpot;
    forall r, c | 0 <= r < OutHeight(plan) && 0 <= c < OutWidth(plan)
      ensures SampleAt(source, SourceSpot(plan, Spot(c, r)), result[r][c])
    {
      var s := SourceSpot(Uncropped(plan), Spot(c, r));
      SpotCropped(plan, Spot(c, r));
      assert SampleAt(cropped, s, result[r][c]);
      assert SampleAt(source, SourceSpot(CropOnly(plan), Spot(s.column, s.row)), cropped[s.row][s.column]);
    }
  }

  lemma ShowsCropped(plan: Plan, source: Frame, cropped: Frame, result: Frame)
    requires Shows(CropOnly(plan), source, cropped)
    requires Shows(Uncropped(plan), cropped, result)
    ensures Shows(plan, source, result)
  {
    hide Pictures;
    PicturesCropped(plan, source.y, cropped.y, result.y);
    PicturesCropped(Halved(plan), source.u, cropped.u, result.u);
    PicturesCropped(Halved(plan), source.v, cropped.v, result.v);
  }

  lemma RotateShows(source: Frame, plan: Plan, current: Frame, rotation: nat)
    requires Shows(plan, source, current) && RightAngle(rotation)
    requires plan.rotation == 0 && !plan.flipHorizontal && !plan.flipVertical
    ensures Shows(plan.(rotation := rotation), source, RotateFrame(current, rotation))
  {
    hide Pictures;
    TurnPictures(plan, source.y, current.y, rotation);
    TurnPictures(Halved(plan), source.u, current.u, rotation);
    TurnPictures(Halved(plan), source.v, current.v, rotation);
  }

  lemma MirrorShows(source: Frame, plan: Plan, current: Frame)
    requires Shows(plan, source, current) && !plan.flipHorizontal && !plan.flipVertical
    ensures Shows(plan.(flipHorizontal := true), source, MirrorFrame(current))
  {
    hide Pictures;
    MirrorPictures(plan, source.y, current.y);
    MirrorPictures(Halved(plan), source.u, current.u);
    MirrorPictures(Halved(plan), source.v, current.v);
  }

  lemma FlipShows(source: Frame, plan: Plan, current: Frame)
    requires Shows(plan, source, current) && !plan.flipVertical
    ensures Shows(plan.(flipVertical := true), source, MirrorFrame(RotateFrame(current, 180)))
  {
    hide Pictures;
    FlipPictures(plan, source.y, current.y);
    FlipPictures(Halved(plan), source.u, current.u);
    FlipPictures(Halved(plan), source.v, current.v);
  }

  /** Every operation that a plan asks for works, each on the result of those before it. */
  predicate PlanWorks(library: Library, source: Frame, cropped: Frame, plan: Plan)
    requires WellFormed(cropped)
  {
    var turned := if plan.rotation != 0 then RotateFrame(cropped, plan.rotation) else cropped;
    var mirrored := if plan.flipHorizontal then MirrorFrame(turned) else turned;
    && library.works(Copying, source)
    && (plan.rotation != 0 ==> library.works(Turning(plan.rotation), cropped))
    && (plan.flipHorizontal ==> library.works(Mirroring, turned))
    && (plan.flipVertical ==>
          library.works(Turning(180), mirrored) && library.works(Mirroring, RotateFrame(mirrored, 180)))
  }

  /**
   * The first half of processing, one step after another: the crop, and what the rest of the plan makes
   * of it; together the whole plan if the offset of the crop's first row loses no bits. There is no
   * result exactly if one of the operations fails.
   */
  method Transform(library: Library, source: Frame, plan: Plan) returns (result: Option<Frame>)
    requires WellFormed(source) && RightAngle(plan.rotation)
    requires plan.x + plan.width <= source.size.width && plan.y + plan.height <= source.size.height
    ensures var cropped := CropFrame(source, plan.x, plan.y, Size(plan.width, plan.height));
            && (result.Some? <==> PlanWorks(library, source, cropped, plan))
            && (result.Some? ==> Shows(Uncropped(plan), cropped, result.value))
    ensures result.Some? && RowsFit(plan.y, source.size.width) ==> Shows(plan, source, result.value)
  {
    hide Shows, WellFormed, RowsFit, CopyFrame;
    var cropped := CropFrame(source, plan.x, plan.y, Size(plan.width, plan.height));
    if !library.works(Copying, source) {
      return None;
    }
    ghost var done := Plan(0, 0, plan.width, plan.height, 0, false, false);
    WholeShows(cropped);
    var current := cropped;
    if plan.rotation != 0 {
      if !library.works(Turning(plan.rotation), current) {
        return None;
      }
      RotateShows(cropped, done, current, plan.rotation);
      done := done.(rotation := plan.rotation);
      ShownWell(cropped, done, RotateFrame(current, plan.rotation));
      current := RotateFrame(current, plan.rotation);
    }
    ShownWell(cropped, done, current);
    if plan.flipHorizontal {
      if !library.works(Mirroring, current) {
        return None;
      }
      MirrorShows(cropped, done, current);
      done := done.(flipHorizontal := true);
      current := MirrorFrame(current);
    }
    ShownWell(cropped, done, current);
    if plan.flipVertical {
      if !library.works(Turning(180), current) {
        return None;
      }
      var rotated := RotateFrame(current, 180);
      if !library.works(Mirroring, rotated) {
        return None;
      }
      FlipShows(cropped, done, current);
      done := done.(flipVertical := true);
      current := MirrorFrame(rotated);
    }
    assert done == Uncropped(plan);
    if RowsFit(plan.y, source.size.width) {
      CropShows(source, CropOnly(plan));
      ShowsCropped(plan, source, cropped, current);
    }
    return Some(current);
  }

  lemma ShownWell(source: Frame, plan: Plan, result: Frame)
    requires Shows(plan, source, result)
    ensures WellFormed(result) && result.size == Size(OutWidth(plan), OutHeight(plan))
  {
  }

  // ---------- Fitting ----------

  /** A plane shows another at some place and one sample everywhere else. */
  predicate Placed(result: Plane, inner: Plane, x: nat, y: nat, width: nat, height: nat, sample: int)
    requires Sized(inner, width, height)
  {
    forall r, c :: 0 <= r < |result| && 0 <= c < |result[r]| ==>
      result[r][c] == if y <= r < y + height && x <= c < x + width then inner[r - y][c - x] else sample
  }

  predicate PlacedFrame(result: Frame, inner: Frame, x: nat, y: nat, samples: (int, int, int))
    requires WellFormed(inner)
  {
    var w, h := inner.size.width, inner.size.height;
    && Placed(result.y, inner.y, x, y, w, h, samples.0)
    && Placed(result.u, inner.u, x / 2, y / 2, w / 2, h / 2, samples.1)
    && Placed(result.v, inner.v, x / 2, y / 2, w / 2, h / 2, samples.2)
  }

  /** A plane shows, in every sample, the part of another from some place on. */
  predicate Cut(result: Plane, inner: Plane, x: nat, y: nat) {
    forall r, c :: 0 <= r < |result| && 0 <= c < |result[r]| ==>
      r + y < |inner| && c + x < |inner[r + y]| && result[r][c] == inner[r + y][c + x]
  }

  predicate CutFrame(result: Frame, inner: Frame, x: nat, y: nat) {
    && Cut(result.y, inner.y, x, y) && Cut(result.u, inner.u, x / 2, y / 2) && Cut(result.v, inner.v, x / 2, y / 2)
  }

  /** What is assumed of the scaler: frames of the size asked for. */
  ghost predicate Scales(library: Library) {
    forall f, size :: WellFormed(f) ==>
      match library.scale(f, size)
      case Some(scaled) => scaled.size == size && WellFormed(scaled)
      case None => true
  }

  function OutputSize(current: Size, config: Config): Size {
    Size(OrElse(config.output.width, current.width), OrElse(config.output.height, current.height))
  }

  /** What the second half makes of a transformed frame. */
  ghost predicate Fitted(config: Config, library: Library, current: Frame, r: Outcome)
    requires config.fit.Some? && WellFormed(current) && Drawable(current.size) && Scales(library)
  {
    var out := OutputSize(current.size, config);
    if !Drawable(out) then r == Refused(INVALID_ARGUMENT)
    else if config.fit == Some(Stretch) then
      if current.size == out then r == Produced(current)
      else if !Allocatable(out) || library.scale(current, out) == None then r == Refused(INTERNAL)
      else r == Produced(library.scale(current, out).value)
    else
      var size := Scaled(config.fit == Some(Contain), current.size, out);
      if !Allocatable(size) || library.scale(current, size) == None || !Allocatable(out) then r == Refused(INTERNAL)
      else Composed(config, library, library.scale(current, size).value, out, r)
  }

  /** What containing and covering make of the scaled frame. */
  ghost predicate Composed(config: Config, library: Library, scaled: Frame, out: Size, r: Outcome)
    requires config.fit.Some? && WellFormed(scaled)
  {
    var contain, size := config.fit == Some(Contain), scaled.size;
    if contain && !FitsIn(size, out) then false
    else if !contain && !FitsIn(out, size) then r == Stray
    else if !library.works(Copying, scaled) then r == Refused(INTERNAL)
    else
      && r.Produced? && r.frame.size == out && WellFormed(r.frame)
      && if contain then
           Contained(r.frame, scaled, Offset(out.width, size.width), Offset(out.height, size.height),
                     config.background)
         else
           Covered(r.frame, scaled, Offset(size.width, out.width), Offset(size.height, out.height))
  }

  /** The scaled frame copied onto the background, at its place unless the row offset loses bits. */
  predicate Contained(result: Frame, inner: Frame, x: nat, y: nat, samples: (int, int, int))
    requires WellFormed(inner) && WellFormed(result)
  {
    && x <= result.size.width && y <= result.size.height
    && result == CopyFrame(inner, Background(result.size, samples), 0, 0, x, y)
    && (RowsFit(y, result.size.width) ==> PlacedFrame(result, inner, x, y, samples))
  }

  /** The part of the scaled frame copied to a new frame, from its place on unless the row offset loses bits. */
  predicate Covered(result: Frame, inner: Frame, x: nat, y: nat)
    requires WellFormed(inner) && WellFormed(result)
  {
    && x <= inner.size.width && y <= inner.size.height
    && result == CopyFrame(inner, Background(result.size, (0, 0, 0)), x, y, 0, 0)
    && (RowsFit(y, inner.size.width) ==> CutFrame(result, inner, x, y))
  }

  method FitFrame(config: Config, library: Library, current: Frame) returns (r: Outcome)
    requires config.fit.Some? && WellFormed(current) && Drawable(current.size)
    requires In32(config.output) && In32(current.size)
    requires Scales(library)
    ensures Fitted(config, library, current, r)
  {
    hide Scaled, Contained, Covered, CopyFrame, Offset, RowsFit;
    var out := OutputSize(current.size, config);
    if !EvenNonzero(out.width) || !EvenNonzero(out.height) {
      return Refused(INVALID_ARGUMENT);
    }
    if config.fit == Some(Stretch) {
      if current.size == out {
        return Produced(current);
      }
      if !Allocatable(out) {
        return Refused(INTERNAL);
      }
      var stretched := library.scale(current, out);
      return if stretched.Some? then Produced(stretched.value) else Refused(INTERNAL);
    }
    var contain := config.fit == Some(Contain);
    var size := Scaled(contain, current.size, out);
    if !Allocatable(size) {
      return Refused(INTERNAL);
    }
    var scaled := library.scale(current, size);
    if scaled == None || !Allocatable(out) {
      return Refused(INTERNAL);
    }
    if contain {
      ContainFits(current.size, out);
      r := ContainFrame(config, library, scaled.value, out);
    } else {
      assert config.fit.value.Cover?;
      r := CoverFrame(config, library, scaled.value, out);
    }
  }

  method ContainFrame(config: Config, library: Library, scaled: Frame, out: Size) returns (r: Outcome)
    requires config.fit == Some(Contain) && WellFormed(scaled) && Drawable(scaled.size) && Drawable(out)
    requires In32(out) && FitsIn(scaled.size, out)
    ensures Composed(config, library, scaled, out, r)
  {
    hide Placed, CopyPlane, Offset, Constant, RowsFit;
    OffsetCentres(out.width, scaled.size.width);
    OffsetCentres(out.height, scaled.size.height);
    var x, y := Offset(out.width, scaled.size.width), Offset(out.height, scaled.size.height);
    var output := Background(out, config.background);
    PlacedByCopy(scaled, output, x, y, config.background);
    return if library.works(Copying, scaled) then Produced(CopyFrame(scaled, output, 0, 0, x, y))
           else Refused(INTERNAL);
  }

  method CoverFrame(config: Config, library: Library, scaled: Frame, out: Size) returns (r: Outcome)
    requires config.fit == Some(Cover) && WellFormed(scaled) && Drawable(scaled.size) && Drawable(out)
    requires In32(scaled.size)
    ensures Composed(config, library, scaled, out, r)
  {
    hide Cut, CopyPlane, Offset, Constant, RowsFit;
    // With a scaled side that lost its high bits the offset below wraps, and the copy strays.
    if !FitsIn(out, scaled.size) {
      return Stray;
    }
    OffsetCentres(scaled.size.width, out.width);
    OffsetCentres(scaled.size.height, out.height);
    var x, y := Offset(scaled.size.width, out.width), Offset(scaled.size.height, out.height);
    var output := Background(out, (0, 0, 0));
    CutByCopy(scaled, output, x, y);
    return if library.works(Copying, scaled) then Produced(CopyFrame(scaled, output, x, y, 0, 0))
           else Refused(INTERNAL);
  }

  lemma PlacedPlane(inner: Plane, width: nat, height: nat, x: nat, y: nat, w: nat, h: nat, sample: int)
    requires Sized(inner, w, h) && x + w <= width && y + h <= height && RowsFit(y, width)
    ensures Placed(CopyPlane(inner, w, Constant(width, height, sample), width, Block(0, 0, x, y, w, h)),
                   inner, x, y, w, h, sample)
  {
    CopyExact(inner, w, Constant(width, height, sample), width, Block(0, 0, x, y, w, h));
  }

  lemma PlacedByCopy(inner: Frame, output: Frame, x: nat, y: nat, samples: (int, int, int))
    requires WellFormed(inner) && Drawable(inner.size) && output == Background(output.size, samples)
    requires x % 2 == 0 && x + inner.size.width <= output.size.width
    requires y % 2 == 0 && y + inner.size.height <= output.size.height
    ensures RowsFit(y, output.size.width) ==>
              PlacedFrame(CopyFrame(inner, output, 0, 0, x, y), inner, x, y, samples)
  {
    hide Placed, CopyPlane, Constant, RowsFit;
    var size, w, h := output.size, inner.size.width, inner.size.height;
    if RowsFit(y, size.width) {
      HalfRowsFit(y, size.width);
      PlacedPlane(inner.y, size.width, size.height, x, y, w, h, samples.0);
      PlacedPlane(inner.u, size.width / 2, size.height / 2, x / 2, y / 2, w / 2, h / 2, samples.1);
      PlacedPlane(inner.v, size.width / 2, size.height / 2, x / 2, y / 2, w / 2, h / 2, samples.2);
    }
  }

  lemma CutPlane(inner: Plane, innerWidth: nat, output: Plane, x: nat, y: nat, width: nat, height: nat)
    requires Sized(inner, innerWidth, |inner|) && Sized(output, width, height)
    requires y + height <= |inner| && x + width <= innerWidth && RowsFit(y, innerWidth)
    ensures Cut(CopyPlane(inner, innerWidth, output, width, Block(x, y, 0, 0, width, height)), inner, x, y)
  {
    CroppedPlane(inner, innerWidth, output, x, y, width, height);
  }

  lemma CutByCopy(inner: Frame, output: Frame, x: nat, y: nat)
    requires WellFormed(inner) && WellFormed(output) && Drawable(output.size) && Drawable(inner.size)
    requires x % 2 == 0 && x + output.size.width <= inner.size.width
    requires y % 2 == 0 && y + output.size.height <= inner.size.height
    ensures RowsFit(y, inner.size.width) ==> CutFrame(CopyFrame(inner, output, x, y, 0, 0), inner, x, y)
  {
    hide Cut, CopyPlane, RowsFit;
    var w, h, iw := output.size.width, output.size.height, inner.size.width;
    if RowsFit(y, iw) {
      HalfRowsFit(y, iw);
      CutPlane(inner.y, iw, output.y, x, y, w, h);
      CutPlane(inner.u, iw / 2, output.u, x / 2, y / 2, w / 2, h / 2);
      CutPlane(inner.v, iw / 2, output.v, x / 2, y / 2, w / 2, h / 2);
    }
  }

  // ---------- The exact conditions ----------

  function RampFrame(size: Size): (r: Frame)
    ensures r.size == size && WellFormed(r)
  {
    Background(size, (0, 0, 0)).(y := Ramp(size.width, size.height))
  }

  /** The crops of a plan show the source, whatever the source is. */
  ghost predicate CropsExactly(size: Size, plan: Plan)
    requires plan.x + plan.width <= size.width && plan.y + plan.height <= size.height
  {
    forall f :: WellFormed(f) && f.size == size ==>
      Shows(CropOnly(plan), f, CropFrame(f, plan.x, plan.y, Size(plan.width, plan.height)))
  }

  /** A plan crops what it names exactly if the offset of its first row is below 2^32. */
  lemma CropExactIff(size: Size, plan: Plan)
    requires plan.x + plan.width <= size.width && plan.y + plan.height <= size.height
    requires plan.width > 0 && plan.height > 0
    ensures CropsExactly(size, plan) <==> RowsFit(plan.y, size.width)
  {
    var only := CropOnly(plan);
    if RowsFit(plan.y, size.width) {
      forall f | WellFormed(f) && f.size == size
        ensures Shows(only, f, CropFrame(f, plan.x, plan.y, Size(plan.width, plan.height)))
      {
        CropShows(f, only);
      }
    } else {
      var f := RampFrame(size);
      var r := CropFrame(f, plan.x, plan.y, Size(plan.width, plan.height));
      RampCut(size, Size(plan.width, plan.height), plan.x, plan.y, Background(r.size, (0, 0, 0)).y);
      assert SourceSpot(only, Spot(0, 0)) == Spot(plan.x, plan.y);
      assert !SampleAt(f.y, SourceSpot(only, Spot(0, 0)), r.y[0][0]);
      assert !Pictures(only, f.y, r.y);
    }
  }

  /** With lost bits the first sample of a rectangle cut from a ramp is not the one at its corner. */
  lemma RampCut(size: Size, part: Size, x: nat, y: nat, blank: Plane)
    requires x + part.width <= size.width && y + part.height <= size.height && part.width > 0 && part.height > 0
    requires Sized(blank, part.width, part.height) && !RowsFit(y, size.width)
    ensures var p := Ramp(size.width, size.height);
            CopyPlane(p, size.width, blank, part.width, Block(x, y, 0, 0, part.width, part.height))[0][0] != p[y][x]
  {
    var b := Block(x, y, 0, 0, part.width, part.height);
    SourceWraps(size, part, b);
    SameSource(size, part, b, blank, Constant(part.width, part.height, -1));
  }

  /** What a rectangle covers does not matter. */
  lemma SameSource(size: Size, part: Size, b: Block, p: Plane, q: Plane)
    requires b.toX == 0 && b.toY == 0 && b.width == part.width > 0 && b.height == part.height > 0
    requires Sized(p, part.width, part.height) && Sized(q, part.width, part.height)
    ensures var from := Ramp(size.width, size.height);
            CopyPlane(from, size.width, p, part.width, b)[0][0] == CopyPlane(from, size.width, q, part.width, b)[0][0]
  {
    RowColumn(0, part.width, 0);
    assert RowOffset(0, part.width) == 0;
  }

  ghost predicate ContainsExactly(inner: Size, out: Size, x: nat, y: nat)
    requires x <= out.width && y <= out.height
  {
    forall f, samples :: WellFormed(f) && f.size == inner ==>
      PlacedFrame(CopyFrame(f, Background(out, samples), 0, 0, x, y), f, x, y, samples)
  }

  /** A contained frame is placed where it belongs exactly if the offset of its first row is below 2^32. */
  lemma ContainExactIff(inner: Size, out: Size, x: nat, y: nat)
    requires Drawable(inner) && x % 2 == 0 && y % 2 == 0
    requires x + inner.width <= out.width && y + inner.height <= out.height
    ensures ContainsExactly(inner, out, x, y) <==> RowsFit(y, out.width)
  {
    if RowsFit(y, out.width) {
      forall f, samples | WellFormed(f) && f.size == inner
        ensures PlacedFrame(CopyFrame(f, Background(out, samples), 0, 0, x, y), f, x, y, samples)
      {
        PlacedByCopy(f, Background(out, samples), x, y, samples);
      }
    } else {
      var f, b := RampFrame(inner), Block(0, 0, x, y, inner.width, inner.height);
      DestinationWraps(inner, out, b);
      var r := CopyFrame(f, Background(out, (-1, 0, 0)), 0, 0, x, y);
      if Placed(r.y, f.y, x, y, inner.width, inner.height, -1) {
        PlacedCopies(f.y, Constant(out.width, out.height, -1), r.y, b);
      }
      assert !PlacedFrame(r, f, x, y, (-1, 0, 0));
    }
  }

  lemma PlacedCopies(p: Plane, q: Plane, r: Plane, b: Block)
    requires b.fromX == 0 && b.fromY == 0 && Sized(p, b.width, b.height)
    requires |r| == |q| && q == Constant(if q == [] then 0 else |q[0]|, |q|, -1)
    requires forall k :: 0 <= k < |q| ==> |r[k]| == |q[k]|
    requires Placed(r, p, b.toX, b.toY, b.width, b.height, -1)
    ensures CopiesBlock(p, q, r, b)
  {
  }

  ghost predicate CoversExactly(inner: Size, out: Size, x: nat, y: nat)
    requires x <= inner.width && y <= inner.height
  {
    forall f :: WellFormed(f) && f.size == inner ==>
      CutFrame(CopyFrame(f, Background(out, (0, 0, 0)), x, y, 0, 0), f, x, y)
  }

  /** A covering frame is cut where it should be exactly if the offset of its first row is below 2^32. */
  lemma CoverExactIff(inner: Size, out: Size, x: nat, y: nat)
    requires Drawable(inner) && Drawable(out) && x % 2 == 0 && y % 2 == 0
    requires x + out.width <= inner.width && y + out.height <= inner.height
    ensures CoversExactly(inner, out, x, y) <==> RowsFit(y, inner.width)
  {
    if RowsFit(y, inner.width) {
      forall f | WellFormed(f) && f.size == inner
        ensures CutFrame(CopyFrame(f, Background(out, (0, 0, 0)), x, y, 0, 0), f, x, y)
      {
        CutByCopy(f, Background(out, (0, 0, 0)), x, y);
      }
    } else {
      var f := RampFrame(inner);
      var r := CopyFrame(f, Background(out, (0, 0, 0)), x, y, 0, 0);
      RampCut(inner, out, x, y, Background(out, (0, 0, 0)).y);
      assert !Cut(r.y, f.y, x, y);
    }
  }

  /**
   * A frame of 2 by 32 covering an output of 32768 by 2 is scaled to 32768 by 524288, and its rows from
   * 262142 on are to be shown; the offset of that row loses its high bits, and row 131070 is shown.
   */
  lemma CoverShowsWrongRow(scaled: Plane, blank: Plane, c: nat)
    requires Sized(scaled, 32768, 524288) && Sized(blank, 32768, 2) && c < 32768
    ensures Scaled(false, Size(2, 32), Size(32768, 2)) == Size(32768, 524288)
    ensures Free(false, Size(2, 32), Size(32768, 2)) < TWO_TO_THE_32
    ensures Offset(524288, 2) == 262142 && Offset(32768, 32768) == 0
    ensures CopyPlane(scaled, 32768, blank, 32768, Block(0, 262142, 0, 0, 32768, 2))[0][c] == scaled[131070][c]
  {
    assert Quotient(32, 32768, 2) == 524288;
    hide CopyPlane, Flat, CopiedSample;
    TopRow(scaled, 32768, blank, Block(0, 262142, 0, 0, 32768, 2), 131070, c);
  }

  /** What a copy from column zero of some row to the top of a plane shows there. */
  lemma TopRow(from: Plane, width: nat, to: Plane, b: Block, shown: nat, c: nat)
    requires Sized(from, width, |from|) && Sized(to, width, |to|) && |to| > 0 && shown < |from| && c < width
    requires b.fromX == 0 && b.toX == 0 && b.toY == 0 && b.width == width && b.height > 0
    requires RowOffset(b.fromY, width) == shown * width
    ensures CopyPlane(from, width, to, width, b)[0][c] == from[shown][c]
  {
    RowColumn(0, width, c);
    FlatAt(from, width, |from|, shown, c);
    OffsetBelow(0, width);
    hide RowOffset, Flat;
    assert CopiedSample(from, width, to, width, b, 0, c)
        == Flat(from, width, RowOffset(b.fromY, width) + 0 + 0 * width + c);
  }

  /** The copy strays only when covering, and only when the computed side does not fit in 32 bits. */
  lemma StraysOnlyBeyond32Bits(config: Config, library: Library, current: Frame)
    requires config.fit.Some? && WellFormed(current) && Drawable(current.size) && Scales(library)
    requires Fitted(config, library, current, Stray)
    ensures config.fit == Some(Cover)
    ensures Free(false, current.size, OutputSize(current.size, config)) >= TWO_TO_THE_32
  {
    hide Scaled, Free;
    var out := OutputSize(current.size, config);
    match config.fit.value {
      case Stretch =>
      case Contain =>
      case Cover =>
        if Free(false, current.size, out) < TWO_TO_THE_32 {
          CoverCovers(current.size, out);
        }
    }
  }
}
