/** Copying a rectangle between planes, with row offsets computed in 32 bits. */
module FrameCopy {
  import opened FitGeometry
  import opened FrameTransform

  /** Where a row starts, as the product of two 32-bit numbers. */
  function RowOffset(row: nat, stride: nat): nat {
    row * stride % TWO_TO_THE_32
  }

  /** The product does not lose its high bits. */
  predicate RowsFit(row: nat, stride: nat) {
    row * stride < TWO_TO_THE_32
  }

  /** A sample of a tightly packed plane by its place in memory; what lies beyond the plane reads as zero. */
  function Flat(p: Plane, stride: nat, i: int): int {
    if i >= 0 && stride != 0 && 0 <= i / stride < |p| && i % stride < |p[i / stride]|
    then p[i / stride][i % stride] else 0
  }

  /** A rectangle in two planes. */
  datatype Block = Block(fromX: nat, fromY: nat, toX: nat, toY: nat, width: nat, height: nat)

  predicate BlockFits(b: Block, from: Size, to: Size) {
    && b.fromX + b.width <= from.width && b.fromY + b.height <= from.height
    && b.toX + b.width <= to.width && b.toY + b.height <= to.height
  }

  /** What the copy leaves at row `k` and column `c` of the destination. */
  function CopiedSample(from: Plane, fromStride: nat, to: Plane, toStride: nat, b: Block, k: nat, c: nat): int
    requires Sized(to, toStride, |to|) && k < |to| && c < toStride
  {
    var i := k * toStride + c - (RowOffset(b.toY, toStride) + b.toX);
    if i >= 0 && i / toStride < b.height && i % toStride < b.width then
      Flat(from, fromStride,
           RowOffset(b.fromY, fromStride) + b.fromX + i / toStride * fromStride + i % toStride)
    else to[k][c]
  }

  function CopyPlane(from: Plane, fromStride: nat, to: Plane, toStride: nat, b: Block): (r: Plane)
    requires Sized(to, toStride, |to|)
    ensures Sized(r, toStride, |to|)
  {
    seq(|to|, k requires 0 <= k < |to| =>
      seq(toStride, c requires 0 <= c < toStride => CopiedSample(from, fromStride, to, toStride, b, k, c)))
  }

  /** The intended copy, row by row. */
  function BlockSample(from: Plane, to: Plane, b: Block, k: nat, c: nat): int
    requires k < |to| && c < |to[k]| && b.fromY + b.height <= |from|
    requires forall r :: b.fromY <= r < b.fromY + b.height ==> b.fromX + b.width <= |from[r]|
  {
    if b.toY <= k < b.toY + b.height && b.toX <= c < b.toX + b.width
    then from[b.fromY + k - b.toY][b.fromX + c - b.toX] else to[k][c]
  }

  ghost predicate CopiesBlock(from: Plane, to: Plane, r: Plane, b: Block)
    requires b.fromY + b.height <= |from|
    requires forall k :: b.fromY <= k < b.fromY + b.height ==> b.fromX + b.width <= |from[k]|
  {
    && |r| == |to|
    && forall k, c :: 0 <= k < |to| && 0 <= c < |to[k]| ==> c < |r[k]| && r[k][c] == BlockSample(from, to, b, k, c)
  }

  // ---------- Rows and columns ----------

  lemma SameQuotient(a: int, b: int, d: nat, r: int, s: int)
    requires 0 <= r < d && 0 <= s < d && a * d + r == b * d + s
    ensures a == b && r == s
  {
    assert (b - a) * d == b * d - a * d && (a - b) * d == a * d - b * d;
    if a < b {
      MonotoneProduct(1, b - a, d);
    } else if b < a {
      MonotoneProduct(1, a - b, d);
    }
  }

  /** The row and the column of a place in memory. */
  lemma RowColumn(q: int, d: nat, r: nat)
    requires r < d
    ensures (q * d + r) / d == q && (q * d + r) % d == r
  {
    var x := q * d + r;
    assert x == x / d * d + x % d;
    SameQuotient(x / d, q, d, x % d, r);
  }

  lemma FlatAt(p: Plane, width: nat, height: nat, r: nat, c: nat)
    requires Sized(p, width, height) && r < height && c < width
    ensures Flat(p, width, r * width + c) == p[r][c]
  {
    RowColumn(r, width, c);
  }

  // ---------- When the copy is the intended one ----------

  /** The distance of a place from the start of a rectangle tells whether it is inside. */
  lemma PlaceInBlock(k: nat, c: nat, width: nat, b: Block)
    requires c < width && b.toX + b.width <= width
    ensures var i := k * width + c - (b.toY * width + b.toX);
            && ((i >= 0 && i / width < b.height && i % width < b.width) <==>
                  (b.toY <= k < b.toY + b.height && b.toX <= c < b.toX + b.width))
            && (b.toY <= k && b.toX <= c ==> i >= 0 && i / width == k - b.toY && i % width == c - b.toX)
  {
    var i := k * width + c - (b.toY * width + b.toX);
    var (q, r) := if b.toX <= c then (k - b.toY, c - b.toX) else (k - b.toY - 1, c - b.toX + width);
    Rearranged(k, b.toY, width, c, b.toX);
    Divided(i, q, width, r);
  }

  lemma Divided(i: int, q: int, d: nat, r: nat)
    requires r < d && i == q * d + r
    ensures (i >= 0 <==> q >= 0) && i / d == q && i % d == r
  {
    RowColumn(q, d, r);
    if q >= 0 {
      MonotoneProduct(0, q, d);
    } else {
      MonotoneProduct(1, -q, d);
    }
  }

  /** Without lost bits every sample is the intended one. */
  lemma SampleExact(from: Plane, fw: nat, to: Plane, tw: nat, b: Block, k: nat, c: nat)
    requires Sized(from, fw, |from|) && Sized(to, tw, |to|) && k < |to| && c < tw
    requires BlockFits(b, Size(fw, |from|), Size(tw, |to|)) && RowsFit(b.fromY, fw) && RowsFit(b.toY, tw)
    ensures CopiedSample(from, fw, to, tw, b, k, c) == BlockSample(from, to, b, k, c)
  {
    PlaceInBlock(k, c, tw, b);
    OffsetBelow(b.fromY, fw);
    OffsetBelow(b.toY, tw);
    hide RowOffset, RowsFit, Flat;
    if b.toY <= k < b.toY + b.height && b.toX <= c < b.toX + b.width {
      InsideExact(from, fw, b, k - b.toY, c - b.toX);
    }
  }

  /** Where a copied sample comes from. */
  lemma InsideExact(from: Plane, fw: nat, b: Block, q: nat, r: nat)
    requires Sized(from, fw, |from|) && q < b.height && r < b.width
    requires b.fromX + b.width <= fw && b.fromY + b.height <= |from|
    ensures Flat(from, fw, b.fromY * fw + b.fromX + q * fw + r) == from[b.fromY + q][b.fromX + r]
  {
    FlatAt(from, fw, |from|, b.fromY + q, b.fromX + r);
    Gathered(b.fromY, q, fw, b.fromX, r);
    hide Flat;
  }

  lemma Rearranged(k: nat, y: nat, tw: nat, c: nat, x: nat)
    ensures k * tw + c - (y * tw + x) == (k - y) * tw + (c - x) == (k - y - 1) * tw + (c - x + tw)
  {
  }

  lemma Gathered(y: nat, q: nat, fw: nat, x: nat, r: nat)
    ensures y * fw + x + q * fw + r == (y + q) * fw + (x + r)
  {
  }

  lemma CopyExact(from: Plane, fw: nat, to: Plane, tw: nat, b: Block)
    requires Sized(from, fw, |from|) && Sized(to, tw, |to|)
    requires BlockFits(b, Size(fw, |from|), Size(tw, |to|)) && RowsFit(b.fromY, fw) && RowsFit(b.toY, tw)
    ensures CopiesBlock(from, to, CopyPlane(from, fw, to, tw, b), b)
  {
    forall k, c | 0 <= k < |to| && 0 <= c < tw
      ensures CopyPlane(from, fw, to, tw, b)[k][c] == BlockSample(from, to, b, k, c)
    {
      SampleExact(from, fw, to, tw, b, k, c);
    }
  }

  /** A plane in which every sample differs. */
  function Ramp(width: nat, height: nat): (p: Plane)
    ensures Sized(p, width, height)
  {
    seq(height, k => seq(width, c => k * width + c))
  }

  function Constant(width: nat, height: nat, sample: int): (p: Plane)
    ensures Sized(p, width, height)
  {
    seq(height, _ => seq(width, _ => sample))
  }

  ghost predicate AlwaysExact(from: Size, to: Size, b: Block)
    requires BlockFits(b, from, to)
  {
    forall p, q :: Sized(p, from.width, from.height) && Sized(q, to.width, to.height) ==>
      CopiesBlock(p, q, CopyPlane(p, from.width, q, to.width, b), b)
  }

  /** With lost bits in the destination's offset the copy writes somewhere before its rectangle. */
  lemma DestinationWraps(from: Size, to: Size, b: Block)
    requires BlockFits(b, from, to) && b.width > 0 && b.height > 0 && !RowsFit(b.toY, to.width)
    ensures var p, q := Ramp(from.width, from.height), Constant(to.width, to.height, -1);
            !CopiesBlock(p, q, CopyPlane(p, from.width, q, to.width, b), b)
  {
    var p, q := Ramp(from.width, from.height), Constant(to.width, to.height, -1);
    var start := RowOffset(b.toY, to.width) + b.toX;
    var k, c := start / to.width, start % to.width;
    assert start == k * to.width + c;
    OffsetBelow(b.toY, to.width);
    EarlierRow(start, b.toY, to.width, b.toX);
    FirstSample(p, from.width, q, to.width, b);
    assert BlockSample(p, q, b, k, c) == -1;
    RampNotNegative(from, RowOffset(b.fromY, from.width) + b.fromX);
    hide RowOffset, RowsFit, BlockFits, Flat, BlockSample;
    assert CopyPlane(p, from.width, q, to.width, b)[k][c] >= 0;
  }

  /** Where the copy puts its first sample. */
  lemma FirstSample(p: Plane, fw: nat, q: Plane, tw: nat, b: Block)
    requires Sized(q, tw, |q|) && tw > 0 && b.width > 0 && b.height > 0
    ensures var start := RowOffset(b.toY, tw) + b.toX;
            start / tw < |q| ==>
              CopyPlane(p, fw, q, tw, b)[start / tw][start % tw] == Flat(p, fw, RowOffset(b.fromY, fw) + b.fromX)
  {
    var start := RowOffset(b.toY, tw) + b.toX;
    var k, c := start / tw, start % tw;
    assert k * tw + c - start == 0;
    RowColumn(0, tw, 0);
    hide RowOffset, Flat;
    if k < |q| {
      assert CopiedSample(p, fw, q, tw, b, k, c) == Flat(p, fw, RowOffset(b.fromY, fw) + b.fromX + 0 * fw + 0);
    }
  }

  lemma RampNotNegative(size: Size, i: nat)
    ensures Flat(Ramp(size.width, size.height), size.width, i) >= 0
  {
    if size.width != 0 && i / size.width < size.height {
      MonotoneProduct(0, i / size.width, size.width);
    }
  }

  lemma OffsetBelow(row: nat, stride: nat)
    ensures RowOffset(row, stride) <= row * stride
    ensures !RowsFit(row, stride) ==> RowOffset(row, stride) < row * stride
    ensures RowsFit(row, stride) ==> RowOffset(row, stride) == row * stride
  {
  }

  lemma WholeRows(y: nat, k: nat, width: nat)
    ensures y < k ==> (y + 1) * width <= k * width
  {
    if y < k {
      MonotoneProduct(y + 1, k, width);
    }
  }

  /** A place before the start of a rectangle is in an earlier row, or in its first row to the left. */
  lemma EarlierRow(start: nat, y: nat, width: nat, x: nat)
    requires x < width && start < y * width + x
    ensures start / width < y || (start / width == y && start % width < x)
  {
    var k, c := start / width, start % width;
    assert start == k * width + c;
    assert (y + 1) * width == y * width + width;
    WholeRows(y, k, width);
  }

  /** With lost bits in the source's offset alone the first sample of the rectangle is another one. */
  lemma SourceWraps(from: Size, to: Size, b: Block)
    requires BlockFits(b, from, to) && b.width > 0 && b.height > 0
    requires RowsFit(b.toY, to.width) && !RowsFit(b.fromY, from.width)
    ensures var p, q := Ramp(from.width, from.height), Constant(to.width, to.height, -1);
            var r := CopyPlane(p, from.width, q, to.width, b);
            r[b.toY][b.toX] < b.fromY * from.width + b.fromX == BlockSample(p, q, b, b.toY, b.toX)
  {
    var p, q := Ramp(from.width, from.height), Constant(to.width, to.height, -1);
    var r := CopyPlane(p, from.width, q, to.width, b);
    var start := RowOffset(b.fromY, from.width) + b.fromX;
    OffsetBelow(b.fromY, from.width);
    OffsetBelow(b.toY, to.width);
    RowColumn(0, to.width, 0);
    assert b.toY * to.width + b.toX - (RowOffset(b.toY, to.width) + b.toX) == 0;
    assert r[b.toY][b.toX] == Flat(p, from.width, start + 0 * from.width + 0);
    RampAt(from, start, b.fromY, b.fromX);
    assert BlockSample(p, q, b, b.toY, b.toX) == b.fromY * from.width + b.fromX;
  }

  lemma RampAt(size: Size, i: nat, y: nat, x: nat)
    requires x < size.width && y < size.height && i < y * size.width + x
    ensures Flat(Ramp(size.width, size.height), size.width, i) == i
  {
    EarlierRow(i, y, size.width, x);
    assert i == i / size.width * size.width + i % size.width;
  }

  /** A copy takes and writes the intended rows, for any contents, exactly if neither offset loses bits. */
  lemma CopyExactIff(from: Size, to: Size, b: Block)
    requires BlockFits(b, from, to) && b.width > 0 && b.height > 0
    ensures AlwaysExact(from, to, b) <==> RowsFit(b.fromY, from.width) && RowsFit(b.toY, to.width)
  {
    var ramp, plain := Ramp(from.width, from.height), Constant(to.width, to.height, -1);
    var r := CopyPlane(ramp, from.width, plain, to.width, b);
    if !RowsFit(b.toY, to.width) {
      DestinationWraps(from, to, b);
    } else if !RowsFit(b.fromY, from.width) {
      SourceWraps(from, to, b);
      assert !CopiesBlock(ramp, plain, r, b);
    } else {
      forall p, q | Sized(p, from.width, from.height) && Sized(q, to.width, to.height)
        ensures CopiesBlock(p, q, CopyPlane(p, from.width, q, to.width, b), b)
      {
        CopyExact(p, from.width, q, to.width, b);
      }
    }
  }

  lemma PlaceInside(y: nat, x: nat, size: Size, width: nat, height: nat, i: nat, j: nat)
    requires y + height <= size.height && x + width <= size.width && i < height && j < width
    ensures RowOffset(y, size.width) + x + i * size.width + j < size.height * size.width
  {
    OffsetBelow(y, size.width);
    hide RowOffset;
    MonotoneProduct(y + i + 1, size.height, size.width);
    assert (y + i + 1) * size.width == y * size.width + i * size.width + size.width;
  }

  /** A copy never reads or writes beyond its planes, wrapped or not. */
  lemma CopyInside(from: Size, to: Size, b: Block, i: nat, j: nat)
    requires BlockFits(b, from, to) && i < b.height && j < b.width
    ensures RowOffset(b.fromY, from.width) + b.fromX + i * from.width + j < from.height * from.width
    ensures RowOffset(b.toY, to.width) + b.toX + i * to.width + j < to.height * to.width
  {
    PlaceInside(b.fromY, b.fromX, from, b.width, b.height, i, j);
    PlaceInside(b.toY, b.toX, to, b.width, b.height, i, j);
  }
}
