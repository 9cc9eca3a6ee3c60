/** The sizes and offsets of aspect-preserving resizing, in 32-bit arithmetic where the source uses it. */
module FitGeometry {
  const TWO_TO_THE_32: nat := 0x1_0000_0000

  predicate EvenNonzero(value: nat) {
    value != 0 && value % 2 == 0
  }

  function Min(a: nat, b: nat): nat {
    if a < b then a else b
  }

  /** Round down to an even value, then keep the low 32 bits. */
  function EvenFloor(value: nat): nat {
    (value - value % 2) % TWO_TO_THE_32
  }

  function AtLeastTwo(value: nat): nat {
    if value < 2 then 2 else value
  }

  /** Unsigned 32-bit subtraction. */
  function Sub32(a: nat, b: nat): nat {
    (a - b) % TWO_TO_THE_32
  }

  datatype Size = Size(width: nat, height: nat)

  predicate Drawable(s: Size) {
    EvenNonzero(s.width) && EvenNonzero(s.height)
  }

  /** The side that follows from scaling one side of the frame to `target`. */
  function Quotient(other: nat, target: nat, side: nat): nat
    requires side != 0
  {
    other * target / side
  }

  /** Whether the width of the output decides, which it does on a tie. */
  predicate ByWidth(contain: bool, frame: Size, out: Size) {
    var lhs, rhs := out.width * frame.height, out.height * frame.width;
    (contain && lhs <= rhs) || (!contain && lhs >= rhs)
  }

  /** The computed side before rounding. */
  function Free(contain: bool, frame: Size, out: Size): nat
    requires Drawable(frame)
  {
    if ByWidth(contain, frame, out) then Quotient(frame.height, out.width, frame.width)
    else Quotient(frame.width, out.height, frame.height)
  }

  /** The size a frame is scaled to. */
  function Scaled(contain: bool, frame: Size, out: Size): Size
    requires Drawable(frame)
  {
    var free := AtLeastTwo(EvenFloor(Free(contain, frame, out)));
    if ByWidth(contain, frame, out) then Size(AtLeastTwo(out.width), free) else Size(free, AtLeastTwo(out.height))
  }

  /** The same without the loss of high bits. */
  function Ideal(contain: bool, frame: Size, out: Size): Size
    requires Drawable(frame)
  {
    var q := Free(contain, frame, out);
    var free := AtLeastTwo(q - q % 2);
    if ByWidth(contain, frame, out) then Size(AtLeastTwo(out.width), free) else Size(free, AtLeastTwo(out.height))
  }

  /** Where the smaller of two extents starts inside the larger. */
  function Offset(larger: nat, smaller: nat): nat {
    EvenFloor(Sub32(larger, smaller) / 2)
  }

  // ---------- Bounds of a quotient ----------

  lemma {:induction false} MonotoneProduct(a: nat, b: nat, factor: nat)
    requires a <= b
    ensures a * factor <= b * factor
  {
  }

  /** The quotient is the largest number whose product with the divisor fits. */
  lemma QuotientBounds(other: nat, target: nat, side: nat)
    requires side != 0
    ensures var q := Quotient(other, target, side); q * side <= other * target < (q + 1) * side
  {
    var n, q := other * target, Quotient(other, target, side);
    assert n == q * side + n % side;
    assert (q + 1) * side == q * side + side;
  }

  lemma QuotientAtMost(other: nat, target: nat, side: nat, limit: nat)
    requires side != 0 && other * target <= limit * side
    ensures Quotient(other, target, side) <= limit
  {
    var q := Quotient(other, target, side);
    QuotientBounds(other, target, side);
    assert (limit + 1) * side == limit * side + side;
    if q > limit {
      MonotoneProduct(limit + 1, q, side);
    }
  }

  lemma QuotientAtLeast(other: nat, target: nat, side: nat, limit: nat)
    requires side != 0 && limit * side <= other * target
    ensures limit <= Quotient(other, target, side)
  {
    var q := Quotient(other, target, side);
    QuotientBounds(other, target, side);
    if q < limit {
      MonotoneProduct(q + 1, limit, side);
    }
  }

  lemma FreeContained(frame: Size, out: Size)
    requires Drawable(frame) && Drawable(out)
    ensures Free(true, frame, out) <= if ByWidth(true, frame, out) then out.height else out.width
  {
    if ByWidth(true, frame, out) {
      QuotientAtMost(frame.height, out.width, frame.width, out.height);
    } else {
      QuotientAtMost(frame.width, out.height, frame.height, out.width);
    }
  }

  lemma FreeCovers(frame: Size, out: Size)
    requires Drawable(frame) && Drawable(out)
    ensures (if ByWidth(false, frame, out) then out.height else out.width) <= Free(false, frame, out)
  {
    if ByWidth(false, frame, out) {
      QuotientAtLeast(frame.height, out.width, frame.width, out.height);
    } else {
      QuotientAtLeast(frame.width, out.height, frame.height, out.width);
    }
  }

  // ---------- What the sizes guarantee ----------

  lemma EvenFloorSmall(value: nat)
    requires value < TWO_TO_THE_32
    ensures EvenFloor(value) == value - value % 2 && EvenFloor(value) % 2 == 0
    ensures value - 1 <= EvenFloor(value) <= value
  {
  }

  predicate FitsIn(inner: Size, outer: Size) {
    inner.width <= outer.width && inner.height <= outer.height
  }

  /** A contained frame lies wholly inside the output and touches two opposite sides of it. */
  lemma ContainFits(frame: Size, out: Size)
    requires Drawable(frame) && Drawable(out)
    requires out.width < TWO_TO_THE_32 && out.height < TWO_TO_THE_32
    ensures var s := Scaled(true, frame, out);
            && Drawable(s) && FitsIn(s, out) && s == Ideal(true, frame, out)
            && (s.width == out.width || s.height == out.height)
  {
    FreeContained(frame, out);
    hide Quotient, ByWidth, Free, EvenFloor;
    EvenFloorSmall(Free(true, frame, out));
  }

  /** A covering frame is at least as large as the output, and has one side in common with it. */
  lemma CoverCovers(frame: Size, out: Size)
    requires Drawable(frame) && Drawable(out) && Free(false, frame, out) < TWO_TO_THE_32
    ensures var s := Scaled(false, frame, out);
            && Drawable(s) && FitsIn(out, s) && (s.width == out.width || s.height == out.height)
  {
    FreeCovers(frame, out);
    hide Quotient, ByWidth, Free, EvenFloor;
    EvenFloorSmall(Free(false, frame, out));
  }

  /** The scaled size is the intended one exactly when the computed side fits in 32 bits. */
  lemma ScaledIsIdealIff(contain: bool, frame: Size, out: Size)
    requires Drawable(frame) && Drawable(out)
    ensures Scaled(contain, frame, out) == Ideal(contain, frame, out) <==> Free(contain, frame, out) < TWO_TO_THE_32
  {
  }

  /** Sides the rest of the program accepts never reach the limit. */
  lemma SmallSidesFit(contain: bool, frame: Size, out: Size)
    requires Drawable(frame) && Drawable(out) && FitsIn(frame, Size(32768, 32768)) && FitsIn(out, Size(32768, 32768))
    ensures Free(contain, frame, out) < TWO_TO_THE_32
  {
    var (other, target, side) := if ByWidth(contain, frame, out) then (frame.height, out.width, frame.width)
                               else (frame.width, out.height, frame.height);
    MonotoneProduct(other, 32768, target);
    QuotientAtMost(other, target, side, 0x4000_0000);
  }

  /** Beyond it a covering frame may come out smaller than the output. */
  lemma CoverMayFail()
    ensures var frame, out := Size(2, 65536), Size(131072, 4);
            && Drawable(frame) && Drawable(out)
            && Scaled(false, frame, out) == Size(131072, 2) && !FitsIn(out, Scaled(false, frame, out))
  {
    assert Quotient(65536, 131072, 2) == TWO_TO_THE_32;
  }

  /**
   * The free side is off from the exact aspect ratio by less than two rows or columns, and too long only
   * where it was raised to two.
   */
  lemma AspectKept(contain: bool, frame: Size, out: Size)
    requires Drawable(frame) && Drawable(out) && Free(contain, frame, out) < TWO_TO_THE_32
    ensures var s := Scaled(contain, frame, out);
            if ByWidth(contain, frame, out) then
              && s.height * frame.width < frame.height * s.width + 2 * frame.width
              && frame.height * s.width < (s.height + 2) * frame.width
              && (2 <= Free(contain, frame, out) ==> s.height * frame.width <= frame.height * s.width)
            else
              && s.width * frame.height < frame.width * s.height + 2 * frame.height
              && frame.width * s.height < (s.width + 2) * frame.height
              && (2 <= Free(contain, frame, out) ==> s.width * frame.height <= frame.width * s.height)
  {
    EvenFloorSmall(Free(contain, frame, out));
    if ByWidth(contain, frame, out) {
      RoundedBounds(frame.height, out.width, frame.width);
      RaisedBounds(Free(contain, frame, out), frame.height * out.width, frame.width);
    } else {
      RoundedBounds(frame.width, out.height, frame.height);
      RaisedBounds(Free(contain, frame, out), frame.width * out.height, frame.height);
    }
    hide Quotient, ByWidth, EvenFloor;
  }

  /** Raising a rounded quotient to two keeps it near the exact one. */
  lemma RaisedBounds(free: nat, exact: nat, side: nat)
    requires free < TWO_TO_THE_32 && side != 0 && exact > 0
    requires EvenFloor(free) * side <= exact < (EvenFloor(free) + 2) * side
    ensures var raised := AtLeastTwo(EvenFloor(free));
            && raised * side < exact + 2 * side && exact < (raised + 2) * side
            && (2 <= free ==> raised * side <= exact)
  {
    EvenFloorSmall(free);
    var even := EvenFloor(free);
    MonotoneProduct(even, AtLeastTwo(even), side);
    MonotoneProduct(even + 2, AtLeastTwo(even) + 2, side);
  }

  lemma RoundedBounds(other: nat, target: nat, side: nat)
    requires side != 0 && Quotient(other, target, side) < TWO_TO_THE_32
    ensures var even := EvenFloor(Quotient(other, target, side)); even * side <= other * target < (even + 2) * side
  {
    var q := Quotient(other, target, side);
    EvenFloorSmall(q);
    QuotientBounds(other, target, side);
    hide Quotient, EvenFloor;
    MonotoneProduct(EvenFloor(q), q, side);
    MonotoneProduct(q + 1, EvenFloor(q) + 2, side);
  }

  /** The smaller extent is centred to the nearest even offset, without any wrap-around. */
  lemma OffsetCentres(larger: nat, smaller: nat)
    requires EvenNonzero(larger) && EvenNonzero(smaller) && smaller <= larger < TWO_TO_THE_32
    ensures var before := Offset(larger, smaller);
            && before % 2 == 0 && before + smaller <= larger
            && 0 <= (larger - smaller - before) - before <= 2
  {
  }
}
