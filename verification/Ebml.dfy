/** Variable-size integers and the bounded EBML header of a WebM or Matroska file. */
module Ebml {
  import opened Results

  type byte = x: int | 0 <= x < 0x100

  const EBML_HEADER := 0x1A45DFA3
  const DOC_TYPE := 0x4282
  const UINT64_LIMIT := 0x1_0000_0000_0000_0000

  // ---------- Variable-size integers, as RFC 8794 section 4 lays them out ----------

  /** The marker bit of a variable-size integer of `width` bytes. */
  function Marker(width: nat): nat
    requires 1 <= width <= 8
  {
    if width == 1 then 0x80 else Marker(width - 1) / 2
  }

  lemma MarkerTable()
    ensures Marker(1) == 0x80 && Marker(2) == 0x40 && Marker(3) == 0x20 && Marker(4) == 0x10
    ensures Marker(5) == 0x08 && Marker(6) == 0x04 && Marker(7) == 0x02 && Marker(8) == 0x01
  {
  }

  /** The width a first byte announces: one more than its leading zero bits. */
  function VintWidth(first: byte): (width: nat)
    requires first != 0
    ensures 1 <= width <= 8 && Marker(width) <= first < 2 * Marker(width)
  {
    if first >= 0x80 then 1
    else if first >= 0x40 then 2
    else if first >= 0x20 then 3
    else if first >= 0x10 then 4
    else if first >= 0x08 then 5
    else if first >= 0x04 then 6
    else if first >= 0x02 then 7
    else 8
  }

  lemma LeadingBit(first: nat, mask: nat)
    requires first < 2 * mask
    ensures first / mask % 2 == (if first < mask then 0 else 1)
  {
    if first < mask {
      assert first / mask == 0;
    } else {
      assert first / mask == 1;
    }
  }

  function BigEndian(bytes: seq<byte>): nat {
    if bytes == [] then 0 else BigEndian(bytes[..|bytes| - 1]) * 0x100 + bytes[|bytes| - 1]
  }

  datatype Vint = Vint(value: nat, width: nat)

  /** The variable-size integer at a position; an element ID keeps its marker, a size drops it. */
  function VintAt(data: seq<byte>, position: nat, keepMarker: bool): (r: Option<Vint>)
    ensures r.Some? ==> 1 <= r.value.width <= 8 && position + r.value.width <= |data|
  {
    if position >= |data| || data[position] == 0 then None
    else
      var width := VintWidth(data[position]);
      if position + width > |data| then None
      else
        var first := if keepMarker then data[position] else data[position] - Marker(width);
        Some(Vint(BigEndian([first] + data[position + 1..position + width]), width))
  }

  method ReadVint(data: seq<byte>, position: nat, keepMarker: bool)
    returns (ok: bool, value: nat, width: nat, next: nat)
    ensures ok <==> VintAt(data, position, keepMarker).Some?
    ensures ok ==> VintAt(data, position, keepMarker) == Some(Vint(value, width)) && next == position + width
  {
    value, width, next := 0, 0, position;
    if position >= |data| || data[position] == 0 {
      return false, value, width, next;
    }
    var first: int := data[position];
    var mask: nat := 0x80;
    width := 1;
    MarkerTable();
    LeadingBit(first, mask);
    while first / mask % 2 == 0
      invariant 1 <= width <= 8 && mask == Marker(width) > 0
      invariant first < 2 * mask && first / mask % 2 == (if first < mask then 0 else 1)
      decreases 8 - width
    {
      // The source gives up beyond width 8; a nonzero byte always has its marker before that.
      assert width < 8;
      mask := mask / 2;
      width := width + 1;
      LeadingBit(first, mask);
    }
    if position + width > |data| {
      return false, value, width, next;
    }
    value := if keepMarker then first else first - mask;
    ghost var lead: byte := value;
    assert data[position + 1..position + 1] == [];
    for index := 1 to width
      invariant value == BigEndian([lead] + data[position + 1..position + index])
    {
      assert ([lead] + data[position + 1..position + index + 1])[..index]
          == [lead] + data[position + 1..position + index];
      value := value * 0x100 + data[position + index];
    }
    return true, value, width, position + width;
  }

  // ---------- Fixed-width size fields, RFC 8794 section 6 ----------

  /** How many values `width` bytes can carry beside the marker: seven bits a byte. */
  function Carries(width: nat): (count: nat)
    ensures 1 <= count
  {
    if width == 0 then 1 else 0x80 * Carries(width - 1)
  }

  /** The bound of the source's guard: all-ones is reserved, and width 8 is only bounded by 64 bits. */
  function SizeLimit(width: nat): nat
    requires 1 <= width <= 8
  {
    if width == 8 then UINT64_LIMIT - 1 else Carries(width) - 1
  }

  /** The low `width` bytes of a value, most significant first. */
  function SizeBytes(width: nat, value: nat): (bytes: seq<byte>)
    ensures |bytes| == width
  {
    if width == 0 then [] else SizeBytes(width - 1, value / 0x100) + [value % 0x100]
  }

  /** A byte with the marker bit of a width set. */
  function Marked(first: byte, width: nat): byte
    requires 1 <= width <= 8
  {
    MarkerTable();
    if first / Marker(width) % 2 == 1 then first else first + Marker(width)
  }

  function SizeField(width: nat, value: nat): (bytes: seq<byte>)
    requires 1 <= width <= 8
    ensures |bytes| == width
  {
    var low := SizeBytes(width, value);
    low[0 := Marked(low[0], width)]
  }

  /** A buffer with one size field overwritten. */
  function Patched(data: seq<byte>, position: nat, width: nat, value: nat): (r: seq<byte>)
    requires 1 <= width <= 8 && position + width <= |data|
    ensures |r| == |data|
  {
    data[..position] + SizeField(width, value) + data[position + width..]
  }

  function Shifted(value: nat, bytes: nat): nat {
    if bytes == 0 then value else Shifted(value, bytes - 1) / 0x100
  }

  lemma {:induction false} ShiftedTail(value: nat, bytes: nat)
    ensures Shifted(value / 0x100, bytes) == Shifted(value, bytes + 1)
  {
    if bytes != 0 {
      ShiftedTail(value, bytes - 1);
    }
  }

  lemma {:induction false} SizeBytesFront(width: nat, value: nat)
    ensures SizeBytes(width + 1, value) == [Shifted(value, width) % 0x100] + SizeBytes(width, value)
  {
    if width != 0 {
      SizeBytesFront(width - 1, value / 0x100);
      ShiftedTail(value, width - 1);
    }
  }

  /** The header bytes a finalization edits. */
  class HeaderBuffer {
    var data: seq<byte>

    constructor (initial: seq<byte>)
      ensures data == initial
    {
      data := initial;
    }

    method Erase(position: nat, count: nat)
      requires position + count <= |data|
      modifies this
      ensures data == old(data[..position] + data[position + count..])
    {
      data := data[..position] + data[position + count..];
    }

    method Insert(position: nat, bytes: seq<byte>)
      requires position <= |data|
      modifies this
      ensures data == old(data[..position] + bytes + data[position..])
    {
      data := data[..position] + bytes + data[position..];
    }

    method WriteSize(position: nat, width: nat, value: nat) returns (ok: bool)
      requires 1 <= width <= 8 && position + width <= |data| && value < UINT64_LIMIT
      modifies this
      ensures ok <==> value < SizeLimit(width)
      ensures data == if ok then Patched(old(data), position, width, value) else old(data)
    {
      if value >= SizeLimit(width) {
        return false;
      }
      ghost var before := data;
      var rest := value;
      for index := 0 to width
        invariant rest == Shifted(value, index)
        invariant data == before[..position + width - index] + SizeBytes(index, value) + before[position + width..]
      {
        SizeBytesFront(index, value);
        data := data[position + width - 1 - index := rest % 0x100];
        rest := rest / 0x100;
      }
      data := data[position := Marked(data[position], width)];
      return true;
    }
  }

  // ---------- A size field reads back ----------

  function Bytes(width: nat): (count: nat)
    ensures count > 0
  {
    if width == 0 then 1 else 0x100 * Bytes(width - 1)
  }

  /** A leading byte worth `unit`, before and after one more byte follows. */
  lemma OneByteMore(first: nat, unit: nat, rest: nat, last: byte)
    ensures (first * unit + rest) * 0x100 + last == first * (0x100 * unit) + (rest * 0x100 + last)
  {
    assert first * unit * 0x100 == first * (0x100 * unit);
  }

  lemma {:induction false} BigEndianFront(bytes: seq<byte>)
    requires bytes != []
    ensures BigEndian(bytes) == bytes[0] * Bytes(|bytes| - 1) + BigEndian(bytes[1..])
    ensures BigEndian(bytes[1..]) < Bytes(|bytes| - 1)
  {
    var n := |bytes| - 1;
    if n == 0 {
      assert bytes[..0] == [] && bytes[1..] == [];
    } else {
      BigEndianFront(bytes[..n]);
      assert bytes[..n][1..] == bytes[1..][..n - 1];
      assert BigEndian(bytes[1..]) == BigEndian(bytes[1..][..n - 1]) * 0x100 + bytes[n];
      OneByteMore(bytes[0], Bytes(n - 1), BigEndian(bytes[..n][1..]), bytes[n]);
      assert BigEndian(bytes) == BigEndian(bytes[..n]) * 0x100 + bytes[n];
      assert Bytes(n) == 0x100 * Bytes(n - 1);
    }
  }

  lemma {:induction false} SizeBytesValue(width: nat, value: nat)
    requires value < Bytes(width)
    ensures BigEndian(SizeBytes(width, value)) == value
  {
    if width != 0 {
      SizeBytesValue(width - 1, value / 0x100);
      var bytes := SizeBytes(width, value);
      assert bytes[..width - 1] == SizeBytes(width - 1, value / 0x100);
    }
  }

  lemma WidthTables()
    ensures Bytes(0) == 1 && Bytes(1) == 0x100 && Bytes(2) == 0x1_0000 && Bytes(3) == 0x100_0000
    ensures Bytes(4) == 0x1_0000_0000 && Bytes(5) == 0x100_0000_0000 && Bytes(6) == 0x1_0000_0000_0000
    ensures Bytes(7) == 0x100_0000_0000_0000 && Bytes(8) == UINT64_LIMIT
    ensures Carries(1) == 0x80 && Carries(2) == 0x4000 && Carries(3) == 0x20_0000 && Carries(4) == 0x1000_0000
    ensures Carries(5) == 0x8_0000_0000 && Carries(6) == 0x400_0000_0000
    ensures Carries(7) == 0x2_0000_0000_0000 && Carries(8) == 0x100_0000_0000_0000
  {
  }

  /** The first byte is below the marker exactly when the value fits beside it. */
  lemma FirstByte(width: nat, value: nat)
    requires 1 <= width <= 8 && value < Bytes(width)
    ensures SizeBytes(width, value)[0] < Marker(width) <==> value < Carries(width)
  {
    var low := SizeBytes(width, value);
    SizeBytesValue(width, value);
    BigEndianFront(low);
    CarriesSplit(width);
    Leading(low[0], Bytes(width - 1), BigEndian(low[1..]), Marker(width));
  }

  lemma CarriesSplit(width: nat)
    requires 1 <= width <= 8
    ensures Carries(width) == Marker(width) * Bytes(width - 1)
  {
    WidthTables();
    MarkerTable();
  }

  lemma Leading(first: nat, unit: nat, rest: nat, bound: nat)
    requires rest < unit
    ensures first < bound <==> first * unit + rest < bound * unit
  {
    if first < bound {
      assert (first + 1) * unit <= bound * unit;
    } else {
      assert bound * unit <= first * unit;
    }
  }

  lemma WidthUnique(first: byte, width: nat)
    requires 1 <= width <= 8 && Marker(width) <= first < 2 * Marker(width)
    ensures first != 0 && VintWidth(first) == width
  {
    MarkerTable();
  }

  lemma FitsBytes(width: nat, value: nat)
    requires 1 <= width <= 8 && value < SizeLimit(width)
    ensures value < Bytes(width)
    ensures width < 8 ==> value < Carries(width)
  {
    WidthTables();
  }

  /**
   * A size that the writer accepts reads back, with its width, exactly when it fits in seven bits a
   * byte; for widths below 8 the writer's own guard already says so.
   */
  lemma SizeReadsBack(data: seq<byte>, position: nat, width: nat, value: nat)
    requires 1 <= width <= 8 && position + width <= |data| && value < SizeLimit(width)
    ensures VintAt(Patched(data, position, width, value), position, false) == Some(Vint(value, width))
       <==> value < Carries(width)
    ensures width < 8 ==> value < Carries(width)
  {
    var low, patched := SizeBytes(width, value), Patched(data, position, width, value);
    FitsBytes(width, value);
    FirstByte(width, value);
    SizeBytesValue(width, value);
    assert patched[position] == Marked(low[0], width);
    assert patched[position + 1..position + width] == low[1..];
    if value < Carries(width) {
      ReadsBack(low, patched, position);
    } else {
      WidthTables();
      TooWide(low, patched, position);
    }
  }

  lemma MarkedSmall(first: byte, width: nat)
    requires 1 <= width <= 8 && first < Marker(width)
    ensures Marked(first, width) == first + Marker(width)
  {
    hide Marker;
    LeadingBit(first, Marker(width));
  }

  lemma ReadsBack(low: seq<byte>, patched: seq<byte>, position: nat)
    requires 1 <= |low| <= 8 && position + |low| <= |patched| && low[0] < Marker(|low|)
    requires patched[position] == Marked(low[0], |low|)
    requires patched[position + 1..position + |low|] == low[1..]
    ensures VintAt(patched, position, false) == Some(Vint(BigEndian(low), |low|))
  {
    hide Marked, VintWidth, BigEndian, Marker;
    MarkedSmall(low[0], |low|);
    WidthUnique(patched[position], |low|);
    assert [low[0]] + low[1..] == low;
    assert [patched[position] - Marker(|low|)] + low[1..] == low;
  }

  /** At width 8 a value of more than 56 bits spoils the field: another width or value is read. */
  lemma TooWide(low: seq<byte>, patched: seq<byte>, position: nat)
    requires |low| == 8 && position + 8 <= |patched| && low[0] >= 1
    requires patched[position] == Marked(low[0], 8) && patched[position + 1..position + 8] == low[1..]
    ensures VintAt(patched, position, false) != Some(Vint(BigEndian(low), 8))
  {
    MarkerTable();
    BigEndianFront(low);
    if VintWidth(patched[position]) == 8 {
      assert ([0] + low[1..])[1..] == low[1..];
      BigEndianFront([0] + low[1..]);
      WidthTables();
    }
  }

  lemma BigEndianOne(a: byte)
    ensures BigEndian([a]) == a
  {
    assert [a][..0] == [];
  }

  lemma BigEndianTwo(a: byte, b: byte)
    ensures BigEndian([a, b]) == 0x100 * a + b
  {
    assert [a, b][..1] == [a];
    BigEndianOne(a);
  }

  lemma BigEndianFour(a: byte, b: byte, c: byte, d: byte)
    ensures BigEndian([a, b, c, d]) == 0x100_0000 * a + 0x1_0000 * b + 0x100 * c + d
  {
    assert [a, b, c, d][..3] == [a, b, c] && [a, b, c][..2] == [a, b];
    BigEndianTwo(a, b);
  }

  lemma {:induction false} Zeros(count: nat)
    ensures BigEndian(seq(count, _ => 0)) == 0
  {
    if count != 0 {
      Zeros(count - 1);
      assert seq(count, _ => 0)[..count - 1] == seq(count - 1, _ => 0);
    }
  }

  /** The writer accepts 2^56 at width 8, sets the marker bit that is already there, and zero is read. */
  lemma TooWideReadsZero(data: seq<byte>)
    requires |data| == 8
    ensures 0x100_0000_0000_0000 < SizeLimit(8)
    ensures VintAt(Patched(data, 0, 8, 0x100_0000_0000_0000), 0, false) == Some(Vint(0, 8))
  {
    var value := 0x100_0000_0000_0000;
    var low, patched := SizeBytes(8, value), Patched(data, 0, 8, value);
    TopByte();
    MarkerTable();
    Zeros(8);
    assert patched == low;
    assert [0] + patched[1..8] == seq(8, _ => 0);
  }

  lemma TopByte()
    ensures SizeBytes(8, 0x100_0000_0000_0000) == [1, 0, 0, 0, 0, 0, 0, 0]
  {
    assert SizeBytes(0, 0) == [];
    assert SizeBytes(1, 1) == [1];
    assert SizeBytes(2, 0x100) == [1, 0];
    assert SizeBytes(3, 0x1_0000) == [1, 0, 0];
    assert SizeBytes(4, 0x100_0000) == [1, 0, 0, 0];
    assert SizeBytes(5, 0x1_0000_0000) == [1, 0, 0, 0, 0];
    assert SizeBytes(6, 0x100_0000_0000) == [1, 0, 0, 0, 0, 0];
    assert SizeBytes(7, 0x1_0000_0000_0000) == [1, 0, 0, 0, 0, 0, 0];
  }

  /** The values the writer accepts, width by width: below the all-ones value, and at width 8 below 2^64 - 1. */
  lemma AcceptedSizes(width: nat, value: nat)
    requires 1 <= width <= 8
    ensures value < SizeLimit(width) <==>
              || (width == 1 && value < 127) || (width == 2 && value < 16383) || (width == 3 && value < 2097151)
              || (width == 4 && value < 268435455) || (width == 5 && value < 34359738367)
              || (width == 6 && value < 4398046511103) || (width == 7 && value < 562949953421311)
              || (width == 8 && value < 18446744073709551615)
  {
    WidthTables();
  }

  /**
   * Below width 8 no accepted size is read back as the reserved value, all ones; at width 8 the value
   * 2^56 - 1 is accepted and is.
   */
  lemma ReservedAtEight(data: seq<byte>, position: nat, width: nat, value: nat)
    requires 1 <= width <= 8 && position + width <= |data| && value < SizeLimit(width)
    ensures value < Carries(width) ==>
              (VintAt(Patched(data, position, width, value), position, false) == Some(Vint(Carries(width) - 1, width))
               <==> width == 8 && value == 0xFF_FFFF_FFFF_FFFF)
  {
    SizeReadsBack(data, position, width, value);
    WidthTables();
    hide VintAt, Patched, SizeLimit, Carries;
    AcceptedSizes(width, value);
  }
}
