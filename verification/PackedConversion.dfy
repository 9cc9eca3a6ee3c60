/** Packed pixel conversion: vector packing of strided rows, and stripes that run in any order. */
module PackedConversion {
  import opened FitGeometry
  import opened FrameTransform
  import FrameCopy

  // ---------- Rows of a strided buffer ----------

  /** Where the rows of a picture lie in a flat buffer. */
  datatype Layout = Layout(offset: nat, stride: nat, length: nat)

  function Start(l: Layout, r: nat): nat {
    l.offset + r * l.stride
  }

  function Rows(from: nat, end: nat): (rows: set<nat>)
    ensures forall r :: r in rows <==> from <= r < end
    decreases end
  {
    if end <= from then {} else Rows(from, end - 1) + {end - 1}
  }

  predicate Covers(l: Layout, r: nat, i: int) {
    Start(l, r) <= i < Start(l, r) + l.length
  }

  predicate RowHolds(l: Layout, row: seq<int>, buffer: seq<int>, r: nat) {
    && |row| == l.length && Start(l, r) + l.length <= |buffer|
    && forall i :: Start(l, r) <= i < Start(l, r) + l.length ==> buffer[i] == row[i - Start(l, r)]
  }

  /** Some rows have been written with their contents, and no other byte has changed. */
  ghost predicate Painted(l: Layout, content: Plane, before: seq<int>, after: seq<int>, rows: set<nat>) {
    && |after| == |before| && l.length <= l.stride
    && (forall r :: r in rows ==> r < |content| && RowHolds(l, content[r], after, r))
    && forall i :: 0 <= i < |before| && (forall r :: r in rows ==> !Covers(l, r, i)) ==> after[i] == before[i]
  }

  lemma RowsApart(l: Layout, r: nat, s: nat)
    requires r < s && l.length <= l.stride
    ensures Start(l, r) + l.length <= Start(l, s)
  {
    MonotoneProduct(r + 1, s, l.stride);
    assert (r + 1) * l.stride == r * l.stride + l.stride;
  }

  /** No byte outside some rows has changed. */
  ghost predicate OnlyRows(l: Layout, before: seq<int>, after: seq<int>, rows: set<nat>) {
    && |after| == |before|
    && forall i :: 0 <= i < |before| && (forall r :: r in rows ==> !Covers(l, r, i)) ==> after[i] == before[i]
  }

  lemma OnlyRowsBoth(l: Layout, a: seq<int>, b: seq<int>, c: seq<int>, first: set<nat>, second: set<nat>)
    requires OnlyRows(l, a, b, first) && OnlyRows(l, b, c, second)
    ensures OnlyRows(l, a, c, first + second)
  {
    forall i | 0 <= i < |a| && (forall r :: r in first + second ==> !Covers(l, r, i))
      ensures c[i] == a[i]
    {
      assert forall r :: r in first ==> r in first + second;
      assert forall r :: r in second ==> r in first + second;
    }
  }

  /** The rows of a part of a buffer are rows of the whole. */
  lemma StartShifted(l: Layout, first: nat, r: nat)
    ensures Start(Layout(Start(l, first), l.stride, l.length), r) == Start(l, first + r)
  {
    assert (first + r) * l.stride == first * l.stride + r * l.stride;
  }

  lemma OnlyRowsShifted(l: Layout, first: nat, height: nat, before: seq<int>, after: seq<int>)
    requires OnlyRows(Layout(Start(l, first), l.stride, l.length), before, after, Rows(0, height))
    ensures OnlyRows(l, before, after, Rows(first, first + height))
  {
    hide Start, Rows;
    var p := Layout(Start(l, first), l.stride, l.length);
    forall i | 0 <= i < |before| && (forall r :: r in Rows(first, first + height) ==> !Covers(l, r, i))
      ensures after[i] == before[i]
    {
      forall r | r in Rows(0, height)
        ensures !Covers(p, r, i)
      {
        StartShifted(l, first, r);
        assert first + r in Rows(first, first + height) && !Covers(l, first + r, i);
      }
    }
  }

  /** Painting some rows and then others paints all of them. */
  lemma PaintedBoth(l: Layout, content: Plane, a: seq<int>, b: seq<int>, c: seq<int>, first: set<nat>, second: set<nat>)
    requires Painted(l, content, a, b, first) && Painted(l, content, b, c, second)
    ensures Painted(l, content, a, c, first + second)
  {
    forall r | r in first && r !in second
      ensures RowHolds(l, content[r], c, r)
    {
      forall i | Start(l, r) <= i < Start(l, r) + l.length
        ensures c[i] == b[i]
      {
        forall s | s in second
          ensures !Covers(l, s, i)
        {
          if s < r { RowsApart(l, s, r); } else { RowsApart(l, r, s); }
        }
      }
    }
    forall i | 0 <= i < |a| && (forall r :: r in first + second ==> !Covers(l, r, i))
      ensures c[i] == a[i]
    {
      assert forall r :: r in first ==> r in first + second;
      assert forall r :: r in second ==> r in first + second;
    }
  }

  /** Painting the rows of a part of a buffer paints the same rows of the whole. */
  lemma PaintedShifted(l: Layout, first: nat, height: nat, part: Plane, content: Plane,
                       before: seq<int>, after: seq<int>)
    requires Painted(Layout(Start(l, first), l.stride, l.length), part, before, after, Rows(0, height))
    requires first + height <= |content| && |part| == height
    requires forall r :: 0 <= r < height ==> part[r] == content[first + r]
    ensures Painted(l, content, before, after, Rows(first, first + height))
  {
    hide Start, Rows;
    var p := Layout(Start(l, first), l.stride, l.length);
    forall r | r in Rows(first, first + height)
      ensures RowHolds(l, content[r], after, r)
    {
      StartShifted(l, first, r - first);
      assert r - first in Rows(0, height);
      assert RowHolds(p, part[r - first], after, r - first);
    }
    hide RowHolds, Covers;
    OnlyRowsShifted(l, first, height, before, after);
  }

  // ---------- Packing four channels to three ----------

  /** Three of every four bytes. */
  function PackedRow(source: seq<int>, from: nat, width: nat): (r: seq<int>)
    requires from + 4 * width <= |source|
    ensures |r| == 3 * width
  {
    seq(3 * width, j requires 0 <= j < 3 * width => source[from + 4 * (j / 3) + j % 3])
  }

  /** One vector: its pixels are loaded with four channels and stored with three. */
  method StoreVector(source: array<int>, read: nat, destination: array<int>, write: nat, lanes: nat)
    requires source != destination
    requires read + 4 * lanes <= source.Length && write + 3 * lanes <= destination.Length
    modifies destination
    ensures forall i :: write <= i < write + 3 * lanes ==>
              destination[i] == source[read + 4 * ((i - write) / 3) + (i - write) % 3]
    ensures forall i :: 0 <= i < write || write + 3 * lanes <= i < destination.Length ==>
              destination[i] == old(destination[i])
  {
    forall j | 0 <= j < 3 * lanes {
      destination[write + j] := source[read + 4 * (j / 3) + j % 3];
    }
    forall i | write <= i < write + 3 * lanes
      ensures destination[i] == source[read + 4 * ((i - write) / 3) + (i - write) % 3]
    {
      assert destination[write + (i - write)] == source[read + 4 * ((i - write) / 3) + (i - write) % 3];
    }
  }

  /** Whole vectors of `lanes` pixels, then single pixels. */
  method PackRow(source: array<int>, from: nat, destination: array<int>, to: nat, width: nat, lanes: nat)
    requires source != destination && lanes > 0
    requires from + 4 * width <= source.Length && to + 3 * width <= destination.Length
    modifies destination
    ensures forall i :: to <= i < to + 3 * width ==> destination[i] == PackedRow(source[..], from, width)[i - to]
    ensures forall i :: 0 <= i < to || to + 3 * width <= i < destination.Length ==>
              destination[i] == old(destination[i])
  {
    var column := 0;
    while column + lanes <= width
      invariant column <= width
      invariant forall i :: to <= i < to + 3 * column ==>
                  destination[i] == source[from + 4 * ((i - to) / 3) + (i - to) % 3]
      invariant forall i :: 0 <= i < to || to + 3 * column <= i < destination.Length ==>
                  destination[i] == old(destination[i])
      decreases width - column
    {
      StoreVector(source, from + 4 * column, destination, to + 3 * column, lanes);
      forall i | to + 3 * column <= i < to + 3 * (column + lanes)
        ensures destination[i] == source[from + 4 * ((i - to) / 3) + (i - to) % 3]
      {
        var j := i - to - 3 * column;
        assert (i - to) / 3 == column + j / 3 && (i - to) % 3 == j % 3;
      }
      column := column + lanes;
    }
    while column < width
      invariant column <= width
      invariant forall i :: to <= i < to + 3 * column ==>
                  destination[i] == source[from + 4 * ((i - to) / 3) + (i - to) % 3]
      invariant forall i :: 0 <= i < to || to + 3 * column <= i < destination.Length ==>
                  destination[i] == old(destination[i])
    {
      destination[to + 3 * column] := source[from + 4 * column];
      destination[to + 3 * column + 1] := source[from + 4 * column + 1];
      destination[to + 3 * column + 2] := source[from + 4 * column + 2];
      column := column + 1;
    }
  }

  /** A buffer of some size has room for a number of rows. */
  predicate RoomFor(l: Layout, height: nat, size: nat) {
    l.length <= l.stride && (height > 0 ==> Start(l, height - 1) + l.length <= size)
  }

  lemma RowFits(l: Layout, height: nat, size: nat, r: nat)
    requires RoomFor(l, height, size) && r < height
    ensures Start(l, r) + l.length <= size
  {
    MonotoneProduct(r, height - 1, l.stride);
  }

  lemma PaintedRow(l: Layout, content: Plane, before: seq<int>, after: seq<int>, r: nat)
    requires |after| == |before| && l.length <= l.stride && r < |content| && |content[r]| == l.length
    requires Start(l, r) + l.length <= |before|
    requires forall i :: Start(l, r) <= i < Start(l, r) + l.length ==> after[i] == content[r][i - Start(l, r)]
    requires forall i :: 0 <= i < Start(l, r) || Start(l, r) + l.length <= i < |before| ==> after[i] == before[i]
    ensures Painted(l, content, before, after, {r})
  {
    forall i | 0 <= i < |before| && (forall s :: s in {r} ==> !Covers(l, s, i))
      ensures after[i] == before[i]
    {
      assert !Covers(l, r, i);
    }
  }

  function PackedRows(source: seq<int>, l: Layout, width: nat, height: nat): (rows: Plane)
    requires RoomFor(l, height, |source|) && l.length == 4 * width
    ensures Sized(rows, 3 * width, height)
  {
    seq(height, r requires 0 <= r < height => RowFits(l, height, |source|, r); PackedRow(source, Start(l, r), width))
  }

  method PackFourToThree(source: array<int>, from: Layout, destination: array<int>, to: Layout,
                         width: nat, height: nat, lanes: nat)
    requires source != destination && lanes > 0 && from.length == 4 * width && to.length == 3 * width
    requires RoomFor(from, height, source.Length) && RoomFor(to, height, destination.Length)
    modifies destination
    ensures Painted(to, PackedRows(source[..], from, width, height), old(destination[..]), destination[..],
                    Rows(0, height))
  {
    ghost var content, start := PackedRows(source[..], from, width, height), destination[..];
    for r := 0 to height
      invariant Painted(to, content, start, destination[..], Rows(0, r))
    {
      RowFits(from, height, source.Length, r);
      RowFits(to, height, destination.Length, r);
      ghost var before := destination[..];
      PackRow(source, Start(from, r), destination, Start(to, r), width, lanes);
      PaintedRow(to, content, before, destination[..], r);
      PaintedBoth(to, content, start, before, destination[..], Rows(0, r), {r});
      assert Rows(0, r) + {r} == Rows(0, r + 1);
    }
  }

  // ---------- Colour ----------

  datatype Quad = Quad(b0: int, b1: int, b2: int, b3: int)

  /** A planar picture and the colour function of a packed format with three or four bytes a pixel. */
  datatype Picture = Picture(
    y: Plane, u: Plane, v: Plane,
    yStride: nat, uStride: nat, vStride: nat,
    color: (int, int, int) -> Quad,
    width: nat, height: nat, four: bool)

  predicate WellSized(p: Picture) {
    && Sized(p.y, p.width, p.height)
    && Sized(p.u, (p.width + 1) / 2, (p.height + 1) / 2) && Sized(p.v, (p.width + 1) / 2, (p.height + 1) / 2)
  }

  function Channel(q: Quad, k: int): int {
    if k == 0 then q.b0 else if k == 1 then q.b1 else if k == 2 then q.b2 else q.b3
  }

  /** The pixel at row `r` of a picture. */
  function Pixel(p: Picture, r: nat, c: nat): Quad
    requires WellSized(p) && r < p.height && c < p.width
  {
    p.color(p.y[r][c], p.u[r / 2][c / 2], p.v[r / 2][c / 2])
  }

  /** The pixel at row `r` of a stripe, found from the stripe's first luma and first chroma row. */
  function StripePixel(p: Picture, first: nat, r: nat, c: nat): Quad
    requires WellSized(p) && first + r < p.height && c < p.width
  {
    p.color(p.y[first + r][c], p.u[first / 2 + r / 2][c / 2], p.v[first / 2 + r / 2][c / 2])
  }

  /** A stripe shows the right chroma because it starts on an even row. */
  lemma StripeAligned(p: Picture, first: nat, r: nat, c: nat)
    requires WellSized(p) && first + r < p.height && c < p.width && first % 2 == 0
    ensures StripePixel(p, first, r, c) == Pixel(p, first + r, c)
  {
    assert (first + r) / 2 == first / 2 + r / 2;
  }

  function PixelBytes(p: Picture): nat {
    if p.four then 4 * p.width else 3 * p.width
  }

  /** The packed rows of the whole picture, pixel by pixel. */
  function PlainRows(p: Picture): (rows: Plane)
    requires WellSized(p)
    ensures Sized(rows, PixelBytes(p), p.height)
  {
    seq(p.height, r requires 0 <= r < p.height =>
      seq(PixelBytes(p), j requires 0 <= j < PixelBytes(p) =>
        if p.four then Channel(Pixel(p, r, j / 4), j % 4) else Channel(Pixel(p, r, j / 3), j % 3)))
  }

  /** Which byte of a packed row is which channel of which pixel: luma by place, chroma by half the place. */
  lemma PlainSamples(p: Picture, r: nat, c: nat)
    requires WellSized(p) && r < p.height && c < p.width
    ensures var q := p.color(p.y[r][c], p.u[r / 2][c / 2], p.v[r / 2][c / 2]);
            && (p.four ==>
                  && PlainRows(p)[r][4 * c] == q.b0 && PlainRows(p)[r][4 * c + 1] == q.b1
                  && PlainRows(p)[r][4 * c + 2] == q.b2 && PlainRows(p)[r][4 * c + 3] == q.b3)
            && (!p.four ==>
                  && PlainRows(p)[r][3 * c] == q.b0 && PlainRows(p)[r][3 * c + 1] == q.b1
                  && PlainRows(p)[r][3 * c + 2] == q.b2)
  {
    hide WellSized;
    if p.four {
      PlainByte(p, r, c, 0);
      PlainByte(p, r, c, 1);
      PlainByte(p, r, c, 2);
      PlainByte(p, r, c, 3);
    } else {
      PlainByte(p, r, c, 0);
      PlainByte(p, r, c, 1);
      PlainByte(p, r, c, 2);
    }
    hide PlainRows;
  }

  lemma PlainByte(p: Picture, r: nat, c: nat, k: nat)
    requires WellSized(p) && r < p.height && c < p.width && k < (if p.four then 4 else 3)
    ensures p.four ==> PlainRows(p)[r][4 * c + k] == Channel(Pixel(p, r, c), k)
    ensures !p.four ==> PlainRows(p)[r][3 * c + k] == Channel(Pixel(p, r, c), k)
  {
    assert (4 * c + k) / 4 == c || !p.four;
    assert (3 * c + k) / 3 == c || p.four;
    hide WellSized, Channel, Pixel;
  }

  function FourRows(p: Picture, first: nat, height: nat): (rows: Plane)
    requires WellSized(p) && first + height <= p.height
    ensures Sized(rows, 4 * p.width, height)
  {
    seq(height, r requires 0 <= r < height =>
      seq(4 * p.width, j requires 0 <= j < 4 * p.width => Channel(StripePixel(p, first, r, j / 4), j % 4)))
  }

  function ThreeRows(p: Picture, first: nat, height: nat): (rows: Plane)
    requires WellSized(p) && first + height <= p.height
    ensures Sized(rows, 3 * p.width, height)
  {
    seq(height, r requires 0 <= r < height =>
      seq(3 * p.width, j requires 0 <= j < 3 * p.width => Channel(StripePixel(p, first, r, j / 3), j % 3)))
  }

  function StripeRows(p: Picture, first: nat, height: nat): (rows: Plane)
    requires WellSized(p) && first + height <= p.height
    ensures Sized(rows, PixelBytes(p), height)
  {
    if p.four then FourRows(p, first, height) else ThreeRows(p, first, height)
  }

  lemma StripeRowIsPlain(p: Picture, first: nat, height: nat, r: nat)
    requires WellSized(p) && first + height <= p.height && first % 2 == 0 && r < height
    ensures StripeRows(p, first, height)[r] == PlainRows(p)[first + r]
  {
    hide StripePixel, Pixel, WellSized;
    var row, plain := StripeRows(p, first, height)[r], PlainRows(p)[first + r];
    forall j | 0 <= j < PixelBytes(p)
      ensures row[j] == plain[j]
    {
      if p.four {
        StripeAligned(p, first, r, j / 4);
      } else {
        StripeAligned(p, first, r, j / 3);
      }
    }
  }

  lemma StripeRowsArePlain(p: Picture, first: nat, height: nat)
    requires WellSized(p) && first + height <= p.height && first % 2 == 0
    ensures forall r :: 0 <= r < height ==> StripeRows(p, first, height)[r] == PlainRows(p)[first + r]
  {
    forall r | 0 <= r < height
      ensures StripeRows(p, first, height)[r] == PlainRows(p)[first + r]
    {
      StripeRowIsPlain(p, first, height, r);
    }
  }

  /** Packing four-channel rows keeps the first three channels of every pixel. */
  lemma PackingKeepsColors(p: Picture, first: nat, height: nat, scratch: seq<int>, l: Layout)
    requires WellSized(p) && first + height <= p.height && l.length == 4 * p.width && RoomFor(l, height, |scratch|)
    requires forall r :: 0 <= r < height ==> RowHolds(l, FourRows(p, first, height)[r], scratch, r)
    ensures PackedRows(scratch, l, p.width, height) == ThreeRows(p, first, height)
  {
    forall r | 0 <= r < height
      ensures PackedRows(scratch, l, p.width, height)[r] == ThreeRows(p, first, height)[r]
    {
      RowFits(l, height, |scratch|, r);
      forall j | 0 <= j < 3 * p.width
        ensures PackedRow(scratch, Start(l, r), p.width)[j] == ThreeRows(p, first, height)[r][j]
      {
        ThirdOfFour(j, p.width);
        hide Start, RoomFor, StripePixel;
        ChannelKept(p, first, height, r, j);
        assert scratch[Start(l, r) + (4 * (j / 3) + j % 3)] == FourRows(p, first, height)[r][4 * (j / 3) + j % 3];
      }
    }
  }

  /** Where a byte of a packed row comes from. */
  lemma ThirdOfFour(j: nat, width: nat)
    requires j < 3 * width
    ensures var at := 4 * (j / 3) + j % 3; at < 4 * width && at / 4 == j / 3 && at % 4 == j % 3
  {
  }

  lemma ChannelKept(p: Picture, first: nat, height: nat, r: nat, j: nat)
    requires WellSized(p) && first + height <= p.height && r < height && j < 3 * p.width
    requires 4 * (j / 3) + j % 3 < 4 * p.width
    ensures FourRows(p, first, height)[r][4 * (j / 3) + j % 3] == ThreeRows(p, first, height)[r][j]
  {
    ThirdOfFour(j, p.width);
    hide StripePixel, Channel;
  }

  // ---------- One stripe ----------

  /** A library kernel: it writes the rows it computes. */
  method RunKernel(content: Plane, buffer: array<int>, l: Layout)
    requires RoomFor(l, |content|, buffer.Length) && forall r :: 0 <= r < |content| ==> |content[r]| == l.length
    modifies buffer
    ensures Painted(l, content, old(buffer[..]), buffer[..], Rows(0, |content|))
  {
    ghost var start := buffer[..];
    for r := 0 to |content|
      invariant Painted(l, content, start, buffer[..], Rows(0, r))
    {
      RowFits(l, |content|, buffer.Length, r);
      ghost var before := buffer[..];
      var at := Start(l, r);
      forall j | 0 <= j < l.length {
        buffer[at + j] := content[r][j];
      }
      forall i | at <= i < at + l.length
        ensures buffer[i] == content[r][i - at]
      {
        assert buffer[at + (i - at)] == content[r][i - at];
      }
      PaintedRow(l, content, before, buffer[..], r);
      PaintedBoth(l, content, start, before, buffer[..], Rows(0, r), {r});
      assert Rows(0, r) + {r} == Rows(0, r + 1);
    }
  }

  function OutputLayout(p: Picture, stride: nat): Layout {
    Layout(0, stride, PixelBytes(p))
  }

  lemma PaintedOnly(l: Layout, content: Plane, before: seq<int>, after: seq<int>, rows: set<nat>)
    requires Painted(l, content, before, after, rows)
    ensures OnlyRows(l, before, after, rows)
  {
  }

  /** The packer's way: four channels to a scratch buffer, and three of them on to the destination. */
  method PackStripe(p: Picture, lanes: nat, destination: array<int>, to: Layout, first: nat, height: nat)
    requires WellSized(p) && lanes > 0 && first + height <= p.height && !p.four
    requires to.length == 3 * p.width && RoomFor(to, height, destination.Length)
    modifies destination
    ensures Painted(to, StripeRows(p, first, height), old(destination[..]), destination[..], Rows(0, height))
  {
    hide Painted, RoomFor, StripePixel, PackedRows;
    var from := Layout(0, 4 * p.width, 4 * p.width);
    var scratch := new int[4 * p.width * height];
    ScratchFits(from, height, scratch.Length);
    RunKernel(FourRows(p, first, height), scratch, from);
    ScratchHolds(from, FourRows(p, first, height), scratch[..]);
    PackFourToThree(scratch, from, destination, to, p.width, height, lanes);
    PackingKeepsColors(p, first, height, scratch[..], from);
  }

  lemma ScratchHolds(l: Layout, content: Plane, buffer: seq<int>)
    requires exists before :: Painted(l, content, before, buffer, Rows(0, |content|))
    ensures forall r :: 0 <= r < |content| ==> RowHolds(l, content[r], buffer, r)
  {
  }

  /** Writes one stripe to its part of the destination. */
  method FillStripe(p: Picture, packer: bool, lanes: nat, destination: array<int>, to: Layout,
                    first: nat, height: nat, code: bv32, spoiled: Plane)
    requires WellSized(p) && lanes > 0 && first + height <= p.height && to.length == PixelBytes(p)
    requires RoomFor(to, height, destination.Length) && Sized(spoiled, PixelBytes(p), height)
    modifies destination
    ensures code == 0 ==>
              Painted(to, StripeRows(p, first, height), old(destination[..]), destination[..], Rows(0, height))
    ensures OnlyRows(to, old(destination[..]), destination[..], Rows(0, height))
  {
    hide Painted, RoomFor, WellSized, StripeRows, Start;
    ghost var before := destination[..];
    if packer && !p.four {
      if code == 0 {
        PackStripe(p, lanes, destination, to, first, height);
        PaintedOnly(to, StripeRows(p, first, height), before, destination[..], Rows(0, height));
      }
    } else if code != 0 {
      RunKernel(spoiled, destination, to);
      PaintedOnly(to, spoiled, before, destination[..], Rows(0, height));
    } else {
      RunKernel(StripeRows(p, first, height), destination, to);
      PaintedOnly(to, StripeRows(p, first, height), before, destination[..], Rows(0, height));
    }
  }

  /**
   * Converts one stripe. `code` is what the library kernel answers; a kernel that fails may have left
   * anything in the rows it was to write, which with the packer are those of a scratch buffer.
   */
  method ConvertStripe(p: Picture, packer: bool, lanes: nat, destination: array<int>, stride: nat,
                       first: nat, height: nat, code: bv32, spoiled: Plane)
    requires WellSized(p) && lanes > 0 && first % 2 == 0 && first + height <= p.height
    requires RoomFor(OutputLayout(p, stride), p.height, destination.Length) && Sized(spoiled, PixelBytes(p), height)
    modifies destination
    ensures code == 0 ==>
              Painted(OutputLayout(p, stride), PlainRows(p), old(destination[..]), destination[..],
                      Rows(first, first + height))
    ensures OnlyRows(OutputLayout(p, stride), old(destination[..]), destination[..], Rows(first, first + height))
  {
    hide Painted, RoomFor, WellSized, StripeRows, OnlyRows, PlainRows;
    ghost var before := destination[..];
    var l := OutputLayout(p, stride);
    PartFits(l, first, height, p.height, destination.Length);
    FillStripe(p, packer, lanes, destination, Layout(Start(l, first), stride, l.length), first, height, code, spoiled);
    OnlyRowsShifted(l, first, height, before, destination[..]);
    if code == 0 {
      StripeRowsArePlain(p, first, height);
      PaintedShifted(l, first, height, StripeRows(p, first, height), PlainRows(p), before, destination[..]);
    }
  }

  lemma PartFits(l: Layout, first: nat, height: nat, total: nat, size: nat)
    requires RoomFor(l, total, size) && first + height <= total
    ensures RoomFor(Layout(Start(l, first), l.stride, l.length), height, size)
  {
    if height > 0 {
      RowFits(l, total, size, first + height - 1);
      assert (first + height - 1) * l.stride == first * l.stride + (height - 1) * l.stride;
    }
  }

  lemma ScratchFits(l: Layout, height: nat, size: nat)
    requires l.offset == 0 && l.length == l.stride && size == l.stride * height
    ensures RoomFor(l, height, size)
  {
    if height > 0 {
      assert l.stride * height == (height - 1) * l.stride + l.stride;
    }
  }

  // ---------- Stripes ----------

  datatype Stripe = Stripe(first: nat, height: nat)

  /** Stripes that follow one another from row 0 to the last row, each starting on an even row. */
  predicate Tiles(stripes: seq<Stripe>, height: nat) {
    if stripes == [] then height == 0
    else
      var last := stripes[|stripes| - 1];
      last.height > 0 && last.first + last.height == height && last.first % 2 == 0
      && Tiles(stripes[..|stripes| - 1], last.first)
  }

  /** Rows for each worker: an equal share, rounded up to an even number. */
  function RowsPerWorker(height: nat, workers: nat): (rows: nat)
    requires workers > 0
  {
    var share := (height + workers - 1) / workers + 1;
    share - share % 2
  }

  lemma SharesCover(height: nat, workers: nat)
    requires workers > 0
    ensures RowsPerWorker(height, workers) % 2 == 0 && height <= Taken(workers, RowsPerWorker(height, workers))
    ensures height > 0 ==> RowsPerWorker(height, workers) >= 2
  {
    var share := (height + workers - 1) / workers;
    var rows := RowsPerWorker(height, workers);
    RoundedUp(height, workers);
    EnoughShares(height, workers);
    hide RowsPerWorker;
    MonotoneProduct(share, rows, workers);
    assert Taken(workers, rows) == rows * workers;
  }

  lemma RoundedUp(height: nat, workers: nat)
    requires workers > 0
    ensures var share, rows := (height + workers - 1) / workers, RowsPerWorker(height, workers);
            rows % 2 == 0 && share <= rows && (share > 0 ==> rows >= 2)
  {
    Even((height + workers - 1) / workers + 1);
  }

  lemma Even(n: nat)
    ensures var m := n - n % 2; m % 2 == 0 && n <= m + 1 && (n >= 2 ==> m >= 2)
  {
  }

  lemma EnoughShares(height: nat, workers: nat)
    requires workers > 0
    ensures var share := (height + workers - 1) / workers;
            height <= share * workers && (height > 0 ==> share > 0)
  {
    var total := height + workers - 1;
    assert total == total / workers * workers + total % workers;
  }

  lemma FewerThan(count: nat, rows: nat, height: nat, workers: nat)
    requires Taken(count, rows) < height <= Taken(workers, rows)
    ensures count < workers
  {
    if workers <= count {
      MonotoneProduct(workers, count, rows);
    }
  }

  lemma TilesMore(stripes: seq<Stripe>, row: nat, stripe: Stripe)
    requires Tiles(stripes, row) && stripe.first == row && stripe.height > 0 && row % 2 == 0
    ensures Tiles(stripes + [stripe], row + stripe.height)
  {
    assert (stripes + [stripe])[..|stripes|] == stripes;
  }

  /** The rows that a number of workers take. */
  function Taken(count: nat, rows: nat): nat {
    count * rows
  }

  lemma OneMore(count: nat, rows: nat)
    ensures Taken(count + 1, rows) == Taken(count, rows) + rows && Taken(0, rows) == 0
  {
  }

  /** Each stripe but the last has the share of one worker, and the last has what is left. */
  predicate Shared(stripes: seq<Stripe>, height: nat, rows: nat) {
    && (forall k :: 0 <= k < |stripes| ==> stripes[k].first == Taken(k, rows) < height)
    && (forall k :: 0 <= k < |stripes| ==> stripes[k].height == Min(rows, height - stripes[k].first))
    && height <= Taken(|stripes|, rows)
  }

  /** The stripes of a picture: disjoint, together all rows, and no more than there are workers. */
  method PlanStripes(height: nat, workers: nat) returns (stripes: seq<Stripe>)
    requires workers > 0
    ensures Tiles(stripes, height) && |stripes| <= workers
    ensures Shared(stripes, height, RowsPerWorker(height, workers))
  {
    hide *;
    SharesCover(height, workers);
    var rows := RowsPerWorker(height, workers);
    OneMore(0, rows);
    NoStripes();
    var row := 0;
    stripes := [];
    while row < height
      invariant Tiles(stripes, Min(row, height)) && row % 2 == 0
      invariant row == Taken(|stripes|, rows) && |stripes| <= workers
      invariant forall k :: 0 <= k < |stripes| ==> stripes[k].first == Taken(k, rows) < height
      invariant forall k :: 0 <= k < |stripes| ==> stripes[k].height == Min(rows, height - stripes[k].first)
      decreases height - row
    {
      FewerThan(|stripes|, rows, height, workers);
      var stripe := Stripe(row, Min(rows, height - row));
      NextRow(row, rows, height);
      TilesMore(stripes, row, stripe);
      OneMore(|stripes|, rows);
      stripes := stripes + [stripe];
      row := row + rows;
    }
    LastRow(row, height);
    SharedParts(stripes, height, rows);
  }

  lemma SharedParts(stripes: seq<Stripe>, height: nat, rows: nat)
    requires forall k :: 0 <= k < |stripes| ==> stripes[k].first == Taken(k, rows) < height
    requires forall k :: 0 <= k < |stripes| ==> stripes[k].height == Min(rows, height - stripes[k].first)
    requires height <= Taken(|stripes|, rows)
    ensures Shared(stripes, height, rows)
  {
  }

  /** No plan has more stripes than it takes to cover the height. */
  lemma NotMore(stripes: seq<Stripe>, height: nat, rows: nat, count: nat)
    requires Shared(stripes, height, rows) && height <= Taken(count, rows)
    ensures |stripes| <= count
  {
    if stripes != [] {
      assert stripes[|stripes| - 1].first == Taken(|stripes| - 1, rows) < height;
      FewerThan(|stripes| - 1, rows, height, count);
    }
  }

  /** There is one such plan. */
  lemma SharedOnce(a: seq<Stripe>, b: seq<Stripe>, height: nat, rows: nat)
    requires Shared(a, height, rows) && Shared(b, height, rows)
    ensures a == b
  {
    NotMore(a, height, rows, |b|);
    NotMore(b, height, rows, |a|);
  }

  /** Where the last stripe starts: the last multiple of a share below the height. */
  function LastStart(height: nat, rows: nat): nat {
    if height == 0 || rows == 0 then 0 else (height - 1) / rows * rows
  }

  lemma LastStripeStarts(stripes: seq<Stripe>, height: nat, rows: nat)
    requires Shared(stripes, height, rows) && stripes != []
    ensures stripes[|stripes| - 1].first == LastStart(height, rows)
  {
    var n := |stripes| - 1;
    assert stripes[n].first == Taken(n, rows) < height;
    OneMore(n, rows);
    LargestMultiple(height - 1, rows, n);
  }

  lemma LargestMultiple(last: nat, rows: nat, n: nat)
    requires Taken(n, rows) <= last < Taken(n, rows) + rows
    ensures last / rows * rows == Taken(n, rows)
  {
    FrameCopy.RowColumn(n, rows, last - Taken(n, rows));
  }

  lemma NextRow(row: nat, rows: nat, height: nat)
    requires row < height && row % 2 == 0 && rows % 2 == 0 && rows >= 2
    ensures (row + rows) % 2 == 0 && Min(row, height) == row
    ensures 0 < Min(rows, height - row) && row + Min(rows, height - row) == Min(row + rows, height)
  {
  }

  lemma LastRow(row: nat, height: nat)
    requires height <= row
    ensures Min(row, height) == height
  {
  }

  lemma NoStripes()
    ensures forall height: nat :: Tiles([], Min(0, height))
  {
  }

  /** An order in which a number of tasks all finish. */
  predicate Schedules(order: seq<nat>, count: nat) {
    (forall k :: 0 <= k < |order| ==> order[k] < count) && (forall task :: 0 <= task < count ==> task in order)
  }

  /** The rows of some of the stripes. */
  function RowsOf(stripes: seq<Stripe>, chosen: seq<nat>): set<nat>
    requires forall k :: 0 <= k < |chosen| ==> chosen[k] < |stripes|
  {
    if chosen == [] then {}
    else
      var s := stripes[chosen[|chosen| - 1]];
      RowsOf(stripes, chosen[..|chosen| - 1]) + Rows(s.first, s.first + s.height)
  }

  lemma {:induction false} TileAt(stripes: seq<Stripe>, height: nat, k: nat)
    requires Tiles(stripes, height) && k < |stripes|
    ensures stripes[k].first % 2 == 0 && stripes[k].first + stripes[k].height <= height
  {
    var n := |stripes| - 1;
    if k < n {
      TileAt(stripes[..n], stripes[n].first, k);
    }
  }

  lemma {:induction false} TileOfRow(stripes: seq<Stripe>, height: nat, r: nat) returns (k: nat)
    requires Tiles(stripes, height) && r < height
    ensures k < |stripes| && stripes[k].first <= r < stripes[k].first + stripes[k].height
  {
    var n := |stripes| - 1;
    if r < stripes[n].first {
      k := TileOfRow(stripes[..n], stripes[n].first, r);
    } else {
      k := n;
    }
  }

  lemma {:induction false} ChosenCovers(stripes: seq<Stripe>, chosen: seq<nat>, at: nat, r: nat)
    requires forall k :: 0 <= k < |chosen| ==> chosen[k] < |stripes|
    requires at < |chosen|
    requires var s := stripes[chosen[at]]; r in Rows(s.first, s.first + s.height)
    ensures r in RowsOf(stripes, chosen)
  {
    if at < |chosen| - 1 {
      ChosenCovers(stripes, chosen[..|chosen| - 1], at, r);
    }
  }

  lemma {:induction false} ChosenInside(stripes: seq<Stripe>, height: nat, chosen: seq<nat>)
    requires Tiles(stripes, height) && forall k :: 0 <= k < |chosen| ==> chosen[k] < |stripes|
    ensures RowsOf(stripes, chosen) <= Rows(0, height)
  {
    if chosen != [] {
      ChosenInside(stripes, height, chosen[..|chosen| - 1]);
      TileAt(stripes, height, chosen[|chosen| - 1]);
    }
  }

  /** Stripes run in any order cover exactly the rows of the picture. */
  lemma AllChosen(stripes: seq<Stripe>, height: nat, chosen: seq<nat>)
    requires Tiles(stripes, height) && Schedules(chosen, |stripes|)
    ensures RowsOf(stripes, chosen) == Rows(0, height)
  {
    ChosenInside(stripes, height, chosen);
    forall r | r in Rows(0, height)
      ensures r in RowsOf(stripes, chosen)
    {
      var k := TileOfRow(stripes, height, r);
      assert k in chosen;
      var at :| 0 <= at < |chosen| && chosen[at] == k;
      ChosenCovers(stripes, chosen, at, r);
    }
  }

  // ---------- The whole picture ----------

  const MAX_INT: nat := 0x7FFF_FFFF

  /** A conversion whose offsets overflow has no meaning in the source. */
  datatype Conversion = Overflowed | Finished(code: bv32)

  /** The offsets of a stripe's rows in the planes and in the destination are representable. */
  predicate OffsetsFit(p: Picture, stride: nat, row: nat) {
    && row * p.yStride <= MAX_INT && row / 2 * p.uStride <= MAX_INT && row / 2 * p.vStride <= MAX_INT
    && row * stride <= MAX_INT
  }

  predicate StripesFit(p: Picture, packer: bool, stride: nat, stripes: seq<Stripe>) {
    && (packer && !p.four ==> 4 * p.width <= MAX_INT)
    && forall k :: 0 <= k < |stripes| ==> OffsetsFit(p, stride, stripes[k].first)
  }

  lemma OrIsZero(a: bv32, b: bv32)
    ensures a | b == 0 <==> a == 0 && b == 0
  {
  }

  /** The codes a kernel answers to stripes, and what it leaves behind where it fails. */
  datatype Kernel = Kernel(answer: Stripe -> bv32, spoil: Stripe -> Plane)

  ghost predicate Spoils(kernel: Kernel, length: nat) {
    forall s :: Sized(kernel.spoil(s), length, s.height)
  }

  /**
   * Converts a picture in stripes that finish in any order. If all offsets are representable, the
   * combined code is zero exactly when no stripe failed, and then every row holds what one plain pass
   * writes; in any case no byte outside the rows changes.
   */
  method ConvertPicture(p: Picture, packer: bool, lanes: nat, destination: array<int>, stride: nat,
                        stripes: seq<Stripe>, order: seq<nat>, kernel: Kernel) returns (result: Conversion)
    requires WellSized(p) && lanes > 0 && RoomFor(OutputLayout(p, stride), p.height, destination.Length)
    requires Tiles(stripes, p.height) && Schedules(order, |stripes|) && Spoils(kernel, PixelBytes(p))
    modifies destination
    ensures result == Overflowed <==> !StripesFit(p, packer, stride, stripes)
    ensures result.Finished? ==>
              (result.code == 0 <==> forall k :: 0 <= k < |stripes| ==> kernel.answer(stripes[k]) == 0)
    ensures result == Finished(0) ==>
              Painted(OutputLayout(p, stride), PlainRows(p), old(destination[..]), destination[..], Rows(0, p.height))
    ensures OnlyRows(OutputLayout(p, stride), old(destination[..]), destination[..], Rows(0, p.height))
  {
    if !StripesFit(p, packer, stride, stripes) {
      return Overflowed;
    }
    var code := ConvertStripes(p, packer, lanes, destination, stride, stripes, order, kernel);
    return Finished(code);
  }

  method ConvertStripes(p: Picture, packer: bool, lanes: nat, destination: array<int>, stride: nat,
                        stripes: seq<Stripe>, order: seq<nat>, kernel: Kernel) returns (code: bv32)
    requires WellSized(p) && lanes > 0 && RoomFor(OutputLayout(p, stride), p.height, destination.Length)
    requires Tiles(stripes, p.height) && Schedules(order, |stripes|) && Spoils(kernel, PixelBytes(p))
    modifies destination
    ensures code == 0 <==> forall k :: 0 <= k < |stripes| ==> kernel.answer(stripes[k]) == 0
    ensures code == 0 ==>
              Painted(OutputLayout(p, stride), PlainRows(p), old(destination[..]), destination[..], Rows(0, p.height))
    ensures OnlyRows(OutputLayout(p, stride), old(destination[..]), destination[..], Rows(0, p.height))
  {
    hide Painted, OnlyRows, WellSized, PlainRows, RoomFor, Tiles, Rows;
    code := 0;
    var l := OutputLayout(p, stride);
    ghost var start := destination[..];
    NothingPainted(p, l, start, destination.Length);
    for k := 0 to |order|
      invariant code == 0 <==> forall j :: 0 <= j < k ==> kernel.answer(stripes[order[j]]) == 0
      invariant code == 0 ==> Painted(l, PlainRows(p), start, destination[..], RowsOf(stripes, order[..k]))
      invariant OnlyRows(l, start, destination[..], RowsOf(stripes, order[..k]))
    {
      var stripe := stripes[order[k]];
      TileAt(stripes, p.height, order[k]);
      ghost var before := destination[..];
      ConvertStripe(p, packer, lanes, destination, stride, stripe.first, stripe.height,
                    kernel.answer(stripe), kernel.spoil(stripe));
      OrIsZero(code, kernel.answer(stripe));
      code := code | kernel.answer(stripe);
      assert order[..k + 1][..k] == order[..k];
      ghost var rows := Rows(stripe.first, stripe.first + stripe.height);
      OnlyRowsBoth(l, start, before, destination[..], RowsOf(stripes, order[..k]), rows);
      if code == 0 {
        PaintedBoth(l, PlainRows(p), start, before, destination[..], RowsOf(stripes, order[..k]), rows);
      }
    }
    assert order[..|order|] == order;
    forall task | 0 <= task < |stripes|
      ensures code == 0 ==> kernel.answer(stripes[task]) == 0
    {
      assert task in order;
    }
    AllChosen(stripes, p.height, order);
  }

  lemma NothingPainted(p: Picture, l: Layout, buffer: seq<int>, size: nat)
    requires WellSized(p) && l.length == PixelBytes(p) && RoomFor(l, p.height, size)
    ensures Painted(l, PlainRows(p), buffer, buffer, {}) && OnlyRows(l, buffer, buffer, {})
  {
  }

  const PARALLEL_PIXELS: nat := 1280 * 720

  ghost predicate Scheduler(schedule: nat -> seq<nat>) {
    forall count :: Schedules(schedule(count), count)
  }

  /** The stripes that a number of workers get: the whole picture for one, equal shares for more. */
  predicate Planned(stripes: seq<Stripe>, height: nat, workers: nat)
    requires workers > 0
  {
    if workers == 1 then stripes == [Stripe(0, height)]
    else Tiles(stripes, height) && |stripes| <= workers && Shared(stripes, height, RowsPerWorker(height, workers))
  }

  /** Height and workers determine the stripes. */
  lemma PlannedOnce(a: seq<Stripe>, b: seq<Stripe>, height: nat, workers: nat)
    requires workers > 0 && Planned(a, height, workers) && Planned(b, height, workers)
    ensures a == b
  {
    if workers != 1 {
      SharedOnce(a, b, height, RowsPerWorker(height, workers));
    }
  }

  function Workers(p: Picture, parallelism: nat): nat {
    if p.width * p.height >= PARALLEL_PIXELS then parallelism else 1
  }

  /** The row at which the planning loop ends: the first multiple of a share from the height on. */
  function EndRow(height: nat, rows: nat): nat {
    if rows == 0 then 0 else (height + rows - 1) / rows * rows
  }

  /** The sums that plan the stripes are representable. */
  predicate CountsFit(height: nat, workers: nat)
    requires workers > 0
  {
    height + workers <= MAX_INT && EndRow(height, RowsPerWorker(height, workers)) <= MAX_INT
  }

  /** Everything a conversion computes in `int` is representable. */
  predicate ConversionFits(p: Picture, packer: bool, stride: nat, parallelism: nat)
    requires parallelism > 0
  {
    var workers := Workers(p, parallelism);
    && (packer && !p.four ==> 4 * p.width <= MAX_INT)
    && (workers > 1 ==>
          CountsFit(p.height, workers) && OffsetsFit(p, stride, LastStart(p.height, RowsPerWorker(p.height, workers))))
  }

  /** Large pictures are shared among the workers, which finish in any order. */
  method ConvertPacked(p: Picture, packer: bool, lanes: nat, destination: array<int>, stride: nat,
                       parallelism: nat, schedule: nat -> seq<nat>, kernel: Kernel)
    returns (stripes: seq<Stripe>, result: Conversion)
    requires WellSized(p) && lanes > 0 && RoomFor(OutputLayout(p, stride), p.height, destination.Length)
    requires parallelism > 0 && Scheduler(schedule) && Spoils(kernel, PixelBytes(p))
    modifies destination
    ensures Planned(stripes, p.height, Workers(p, parallelism))
    ensures result == Overflowed <==> !ConversionFits(p, packer, stride, parallelism)
    ensures result.Finished? ==>
              (result.code == 0 <==> forall k :: 0 <= k < |stripes| ==> kernel.answer(stripes[k]) == 0)
    ensures result == Finished(0) ==>
              Painted(OutputLayout(p, stride), PlainRows(p), old(destination[..]), destination[..], Rows(0, p.height))
    ensures OnlyRows(OutputLayout(p, stride), old(destination[..]), destination[..], Rows(0, p.height))
  {
    hide Painted, OnlyRows, WellSized, RoomFor, PlainRows, Tiles, Shared, EndRow, LastStart, Taken, OffsetsFit;
    var workers := Workers(p, parallelism);
    if workers == 1 {
      var whole := Stripe(0, p.height);
      stripes := [whole];
      if packer && !p.four && 4 * p.width > MAX_INT {
        NothingPainted(p, OutputLayout(p, stride), destination[..], destination.Length);
        OnlyFewer(OutputLayout(p, stride), destination[..], destination[..], p.height);
        return stripes, Overflowed;
      }
      ConvertStripe(p, packer, lanes, destination, stride, 0, p.height, kernel.answer(whole), kernel.spoil(whole));
      assert stripes[0] == whole;
      return stripes, Finished(kernel.answer(whole));
    }
    stripes := PlanStripes(p.height, workers);
    if !CountsFit(p.height, workers) {
      NothingPainted(p, OutputLayout(p, stride), destination[..], destination.Length);
      OnlyFewer(OutputLayout(p, stride), destination[..], destination[..], p.height);
      return stripes, Overflowed;
    }
    PlanFits(p, packer, stride, stripes, workers);
    result := ConvertPicture(p, packer, lanes, destination, stride, stripes, schedule(|stripes|), kernel);
  }

  /** Whether the offsets of a plan fit can be seen before there is one. */
  lemma PlanFits(p: Picture, packer: bool, stride: nat, stripes: seq<Stripe>, workers: nat)
    requires workers > 0 && p.height > 0 && Tiles(stripes, p.height)
    requires Shared(stripes, p.height, RowsPerWorker(p.height, workers))
    ensures StripesFit(p, packer, stride, stripes)
       <==> && (packer && !p.four ==> 4 * p.width <= MAX_INT)
            && OffsetsFit(p, stride, LastStart(p.height, RowsPerWorker(p.height, workers)))
  {
    LastStripeDecides(p, packer, stride, stripes, p.height);
    LastStripeStarts(stripes, p.height, RowsPerWorker(p.height, workers));
  }

  lemma OnlyFewer(l: Layout, before: seq<int>, after: seq<int>, height: nat)
    requires OnlyRows(l, before, after, {})
    ensures OnlyRows(l, before, after, Rows(0, height))
  {
  }

  /** The offsets of the last stripe decide whether all offsets are representable. */
  lemma LastStripeDecides(p: Picture, packer: bool, stride: nat, stripes: seq<Stripe>, height: nat)
    requires Tiles(stripes, height) && stripes != []
    ensures StripesFit(p, packer, stride, stripes)
       <==> (packer && !p.four ==> 4 * p.width <= MAX_INT) && OffsetsFit(p, stride, stripes[|stripes| - 1].first)
  {
    var n := |stripes| - 1;
    if OffsetsFit(p, stride, stripes[n].first) {
      forall k | 0 <= k < |stripes|
        ensures OffsetsFit(p, stride, stripes[k].first)
      {
        if k < n {
          TileAt(stripes[..n], stripes[n].first, k);
          EarlierFits(p, stride, stripes[k].first, stripes[n].first);
        }
      }
    }
  }

  lemma EarlierFits(p: Picture, stride: nat, earlier: nat, later: nat)
    requires OffsetsFit(p, stride, later) && earlier <= later
    ensures OffsetsFit(p, stride, earlier)
  {
    MonotoneProduct(earlier, later, p.yStride);
    MonotoneProduct(earlier / 2, later / 2, p.uStride);
    MonotoneProduct(earlier / 2, later / 2, p.vStride);
    MonotoneProduct(earlier, later, stride);
  }

  /** The threshold of 1280 by 720 pixels: below it one worker converts, however wide the rows are. */
  lemma SmallAlone(p: Picture, stride: nat, parallelism: nat)
    requires parallelism > 1 && p.four && p.width == 1280
    ensures p.height < 720 ==> ConversionFits(p, true, stride, parallelism)
    ensures p.height == 720 && parallelism == 2 && stride > 0x7FFF_FFFF ==>
              !ConversionFits(p, true, stride, parallelism)
  {
    if p.height == 720 && parallelism == 2 {
      assert RowsPerWorker(720, 2) == 360 && LastStart(720, 360) == 360;
    }
  }

  /**
   * 1280 by 4096 pixels with four channels, into rows of one mebibyte: one worker converts them, and for
   * two the second stripe starts at row 2048, whose offset is 2^31.
   */
  lemma WideRowsOverflow(p: Picture, packer: bool)
    requires p.width == 1280 && p.height == 4096 && p.four
    ensures ConversionFits(p, packer, 0x10_0000, 1) && !ConversionFits(p, packer, 0x10_0000, 2)
    ensures p.yStride <= 0x1000 && p.uStride <= 0x1000 && p.vStride <= 0x1000 ==>
              ConversionFits(p, packer, 0xF_FFFF, 2)
  {
    assert RowsPerWorker(4096, 2) == 2048;
    assert LastStart(4096, 2048) == 2048;
  }
}
