/** Cropping, turning and flipping of planar frames as one map of sample positions. */
module FrameTransform {
  type Plane = seq<seq<int>>

  datatype Spot = Spot(column: int, row: int)

  predicate Sized(p: Plane, width: nat, height: nat) {
    |p| == height && forall r :: 0 <= r < height ==> |p[r]| == width
  }

  predicate Inside(s: Spot, width: nat, height: nat) {
    0 <= s.column < width && 0 <= s.row < height
  }

  // ---------- The plane operations ----------

  function Window(p: Plane, x: nat, y: nat, width: nat, height: nat): (r: Plane)
    requires y + height <= |p| && forall k :: y <= k < y + height ==> x + width <= |p[k]|
    ensures Sized(r, width, height)
  {
    seq(height, k requires 0 <= k < height => p[y + k][x..x + width])
  }

  /** The sides after a turn. */
  predicate Swaps(rotation: nat) {
    rotation == 90 || rotation == 270
  }

  /** The position, in a plane of the given size, that a clockwise turn brings to `s`. */
  function Unturned(rotation: nat, width: nat, height: nat, s: Spot): Spot {
    match rotation
    case 90 => Spot(s.row, height - 1 - s.column)
    case 180 => Spot(width - 1 - s.column, height - 1 - s.row)
    case 270 => Spot(width - 1 - s.row, s.column)
    case _ => s
  }

  function Unmirrored(width: nat, s: Spot): Spot {
    Spot(width - 1 - s.column, s.row)
  }

  function Turned(p: Plane, width: nat, height: nat, rotation: nat): (r: Plane)
    requires Sized(p, width, height)
    ensures if Swaps(rotation) then Sized(r, height, width) else Sized(r, width, height)
  {
    var (w, h) := if Swaps(rotation) then (height, width) else (width, height);
    seq(h, row requires 0 <= row < h =>
      seq(w, column requires 0 <= column < w =>
        var s := Unturned(rotation, width, height, Spot(column, row)); p[s.row][s.column]))
  }

  function Mirrored(p: Plane, width: nat, height: nat): (r: Plane)
    requires Sized(p, width, height)
    ensures Sized(r, width, height)
  {
    seq(height, row requires 0 <= row < height =>
      seq(width, column requires 0 <= column < width => p[row][width - 1 - column]))
  }

  // ---------- A plan and its map ----------

  datatype Plan = Plan(x: nat, y: nat, width: nat, height: nat, rotation: nat, flipHorizontal: bool, flipVertical: bool)

  predicate RightAngle(rotation: nat) {
    rotation == 0 || rotation == 90 || rotation == 180 || rotation == 270
  }

  function OutWidth(plan: Plan): nat {
    if Swaps(plan.rotation) then plan.height else plan.width
  }

  function OutHeight(plan: Plan): nat {
    if Swaps(plan.rotation) then plan.width else plan.height
  }

  /** The position before the flips of a plan. */
  function Unflipped(plan: Plan, s: Spot): Spot {
    var w, h := OutWidth(plan), OutHeight(plan);
    var upright := if plan.flipVertical then Unturned(180, w, h, Unmirrored(w, s)) else s;
    if plan.flipHorizontal then Unmirrored(w, upright) else upright
  }

  /** The source position of a result position: each step of the plan undone, last step first. */
  function SourceSpot(plan: Plan, s: Spot): Spot {
    var cropped := Unturned(plan.rotation, plan.width, plan.height, Unflipped(plan, s));
    Spot(cropped.column + plan.x, cropped.row + plan.y)
  }

  /** The position after the flips of a plan: they reverse columns and rows. */
  function Flipped(plan: Plan, s: Spot): Spot {
    Spot(if plan.flipHorizontal then OutWidth(plan) - 1 - s.column else s.column,
         if plan.flipVertical then OutHeight(plan) - 1 - s.row else s.row)
  }

  /** The result position of a source position: each step of the plan done, first step first. */
  function ResultSpot(plan: Plan, s: Spot): Spot {
    var back := if Swaps(plan.rotation) then 360 - plan.rotation else plan.rotation;
    Flipped(plan, Unturned(back, OutWidth(plan), OutHeight(plan), Spot(s.column - plan.x, s.row - plan.y)))
  }

  predicate InCrop(plan: Plan, s: Spot) {
    plan.x <= s.column < plan.x + plan.width && plan.y <= s.row < plan.y + plan.height
  }

  lemma FlipsUndone(plan: Plan, s: Spot)
    ensures Unflipped(plan, s) == Flipped(plan, s)
    ensures Flipped(plan, Flipped(plan, s)) == s
    ensures Inside(s, OutWidth(plan), OutHeight(plan)) <==> Inside(Flipped(plan, s), OutWidth(plan), OutHeight(plan))
  {
  }

  lemma TurnUndone(rotation: nat, width: nat, height: nat, s: Spot)
    requires RightAngle(rotation)
    ensures var (w, h) := if Swaps(rotation) then (height, width) else (width, height);
            var back := if Swaps(rotation) then 360 - rotation else rotation;
            && Unturned(back, w, h, Unturned(rotation, width, height, s)) == s
            && Unturned(rotation, width, height, Unturned(back, w, h, s)) == s
            && (Inside(s, w, h) ==> Inside(Unturned(rotation, width, height, s), width, height))
            && (Inside(s, width, height) ==> Inside(Unturned(back, w, h, s), w, h))
  {
  }

  /** Result positions and cropped source positions correspond one to one. */
  lemma SpotsCorrespond(plan: Plan, s: Spot)
    requires RightAngle(plan.rotation)
    ensures Inside(s, OutWidth(plan), OutHeight(plan)) ==>
              InCrop(plan, SourceSpot(plan, s)) && ResultSpot(plan, SourceSpot(plan, s)) == s
    ensures InCrop(plan, s) ==>
              Inside(ResultSpot(plan, s), OutWidth(plan), OutHeight(plan)) && SourceSpot(plan, ResultSpot(plan, s)) == s
  {
    hide Unturned, Unflipped, Flipped;
    var back := if Swaps(plan.rotation) then 360 - plan.rotation else plan.rotation;
    var cropped := Spot(s.column - plan.x, s.row - plan.y);
    FlipsUndone(plan, s);
    FlipsUndone(plan, Unturned(back, OutWidth(plan), OutHeight(plan), cropped));
    FlipsUndone(plan, ResultSpot(plan, s));
    TurnUndone(plan.rotation, plan.width, plan.height, Unflipped(plan, s));
    TurnUndone(plan.rotation, plan.width, plan.height, cropped);
  }

  /** A vertical flip, made of a half turn and a mirror, reverses the rows and nothing else. */
  lemma VerticalFlip(plan: Plan, s: Spot)
    ensures SourceSpot(plan.(flipVertical := true), s)
         == SourceSpot(plan.(flipVertical := false), Spot(s.column, OutHeight(plan) - 1 - s.row))
  {
  }

  /** The larger turns repeat the quarter turn, four of which change nothing. */
  lemma QuarterTurns(width: nat, height: nat, s: Spot)
    ensures Unturned(180, width, height, s) == Unturned(90, width, height, Unturned(90, height, width, s))
    ensures Unturned(270, width, height, s) == Unturned(180, width, height, Unturned(90, width, height, s))
    ensures s == Unturned(270, width, height, Unturned(90, height, width, s))
  {
  }

  /** The plan for the chroma planes of a frame that the plan for the luma plane is applied to. */
  function Halved(plan: Plan): Plan {
    plan.(x := plan.x / 2, y := plan.y / 2, width := plan.width / 2, height := plan.height / 2)
  }

  function HalfSpot(s: Spot): Spot {
    Spot(s.column / 2, s.row / 2)
  }

  predicate Even(plan: Plan) {
    plan.x % 2 == 0 && plan.y % 2 == 0 && plan.width % 2 == 0 && plan.height % 2 == 0
  }

  /** The chroma sample of a result position comes from the chroma sample of its source position. */
  lemma ChromaAligned(plan: Plan, s: Spot)
    requires Even(plan) && RightAngle(plan.rotation) && Inside(s, OutWidth(plan), OutHeight(plan))
    ensures SourceSpot(Halved(plan), HalfSpot(s)) == HalfSpot(SourceSpot(plan, s))
  {
  }

  // ---------- Planes ----------

  /** Every sample of the result is the source's sample at the mapped position. */
  predicate Pictures(plan: Plan, source: Plane, result: Plane) {
    && Sized(result, OutWidth(plan), OutHeight(plan))
    && forall r, c :: 0 <= r < OutHeight(plan) && 0 <= c < OutWidth(plan) ==>
         SampleAt(source, SourceSpot(plan, Spot(c, r)), result[r][c])
  }

  predicate SampleAt(p: Plane, s: Spot, sample: int) {
    0 <= s.row < |p| && 0 <= s.column < |p[s.row]| && p[s.row][s.column] == sample
  }

  lemma CropPictures(plan: Plan, source: Plane)
    requires plan.y + plan.height <= |source|
    requires forall k :: plan.y <= k < plan.y + plan.height ==> plan.x + plan.width <= |source[k]|
    requires plan.rotation == 0 && !plan.flipHorizontal && !plan.flipVertical
    ensures Pictures(plan, source, Window(source, plan.x, plan.y, plan.width, plan.height))
  {
  }

  lemma TurnSpot(plan: Plan, rotation: nat, s: Spot)
    requires plan.rotation == 0 && !plan.flipHorizontal && !plan.flipVertical
    ensures SourceSpot(plan.(rotation := rotation), s)
         == SourceSpot(plan, Unturned(rotation, plan.width, plan.height, s))
  {
  }

  lemma TurnPictures(plan: Plan, source: Plane, current: Plane, rotation: nat)
    requires Pictures(plan, source, current) && RightAngle(rotation)
    requires plan.rotation == 0 && !plan.flipHorizontal && !plan.flipVertical
    ensures Pictures(plan.(rotation := rotation), source, Turned(current, plan.width, plan.height, rotation))
  {
    hide SourceSpot, SampleAt, Unturned;
    var result := Turned(current, plan.width, plan.height, rotation);
    var after := plan.(rotation := rotation);
    forall r, c | 0 <= r < OutHeight(after) && 0 <= c < OutWidth(after)
      ensures SampleAt(source, SourceSpot(after, Spot(c, r)), result[r][c])
    {
      var s := Unturned(rotation, plan.width, plan.height, Spot(c, r));
      TurnUndone(rotation, plan.width, plan.height, Spot(c, r));
      TurnSpot(plan, rotation, Spot(c, r));
      assert SampleAt(source, SourceSpot(plan, Spot(s.column, s.row)), current[s.row][s.column]);
    }
  }

  lemma MirrorSpot(plan: Plan, s: Spot)
    requires !plan.flipHorizontal && !plan.flipVertical
    ensures SourceSpot(plan.(flipHorizontal := true), s) == SourceSpot(plan, Unmirrored(OutWidth(plan), s))
  {
  }

  lemma MirrorPictures(plan: Plan, source: Plane, current: Plane)
    requires Pictures(plan, source, current) && !plan.flipHorizontal && !plan.flipVertical
    ensures Pictures(plan.(flipHorizontal := true), source, Mirrored(current, OutWidth(plan), OutHeight(plan)))
  {
    hide SourceSpot, SampleAt;
    var w := OutWidth(plan);
    var result, after := Mirrored(current, w, OutHeight(plan)), plan.(flipHorizontal := true);
    forall r, c | 0 <= r < OutHeight(after) && 0 <= c < OutWidth(after)
      ensures SampleAt(source, SourceSpot(after, Spot(c, r)), result[r][c])
    {
      MirrorSpot(plan, Spot(c, r));
      assert SampleAt(source, SourceSpot(plan, Spot(w - 1 - c, r)), current[r][w - 1 - c]);
    }
  }

  function FlippedVertically(p: Plane, width: nat, height: nat): (r: Plane)
    requires Sized(p, width, height)
    ensures Sized(r, width, height)
  {
    Mirrored(Turned(p, width, height, 180), width, height)
  }

  lemma FlipPictures(plan: Plan, source: Plane, current: Plane)
    requires Pictures(plan, source, current) && !plan.flipVertical
    ensures Pictures(plan.(flipVertical := true), source, FlippedVertically(current, OutWidth(plan), OutHeight(plan)))
  {
    hide SourceSpot, SampleAt, FlippedVertically;
    var w, h := OutWidth(plan), OutHeight(plan);
    var result, after := FlippedVertically(current, w, h), plan.(flipVertical := true);
    forall r, c | 0 <= r < OutHeight(after) && 0 <= c < OutWidth(after)
      ensures SampleAt(source, SourceSpot(after, Spot(c, r)), result[r][c])
    {
      VerticalFlip(plan, Spot(c, r));
      FlippedSample(current, w, h, r, c);
      assert plan.(flipVertical := false) == plan;
      assert SampleAt(source, SourceSpot(plan, Spot(c, h - 1 - r)), current[h - 1 - r][c]);
    }
  }

  lemma FlippedSample(p: Plane, width: nat, height: nat, r: nat, c: nat)
    requires Sized(p, width, height) && r < height && c < width
    ensures FlippedVertically(p, width, height)[r][c] == p[height - 1 - r][c]
  {
  }
}
