/** The EBML header parser and the rewrite that turns a WebM header into a Matroska one. */
module ContainerHeader {
  import opened Results
  import opened Ebml

  const WEBM: seq<byte> := [0x77, 0x65, 0x62, 0x6D]
  const MATROSKA: seq<byte> := [0x6D, 0x61, 0x74, 0x72, 0x6F, 0x73, 0x6B, 0x61]
  const PREFIX := 4096

  datatype HeaderInfo = HeaderInfo(
    payloadSizePosition: nat,
    payloadSizeWidth: nat,
    payloadSize: nat,
    headerEnd: nat,
    docSizePosition: nat,
    docSizeWidth: nat,
    docValuePosition: nat,
    docValueSize: nat,
    docType: seq<byte>)

  // ---------- Parsing ----------

  /** The size field and the value of one element. */
  datatype Element = Element(sizePosition: nat, sizeWidth: nat, valuePosition: nat, valueSize: nat)

  /** The first DocType element between two positions, if every element up to it is well formed. */
  function FindDocType(bytes: seq<byte>, position: nat, end: nat): Option<Element>
    decreases end - position
  {
    if position >= end then None
    else
      match VintAt(bytes, position, true)
      case None => None
      case Some(id) =>
        var sizePosition := position + id.width;
        if sizePosition > end then None
        else
          match VintAt(bytes, sizePosition, false)
          case None => None
          case Some(size) =>
            var valuePosition := sizePosition + size.width;
            if valuePosition > end || size.value > end - valuePosition then None
            else if id.value == DOC_TYPE then
              Some(Element(sizePosition, size.width, valuePosition, size.value))
            else FindDocType(bytes, valuePosition + size.value, end)
  }

  /** Where an element found from a position can be. */
  lemma {:induction false} FoundWithin(bytes: seq<byte>, position: nat, end: nat)
    requires FindDocType(bytes, position, end).Some?
    ensures var e := FindDocType(bytes, position, end).value;
            && position < e.sizePosition && 1 <= e.sizeWidth <= 8
            && e.valuePosition == e.sizePosition + e.sizeWidth
            && e.valuePosition + e.valueSize <= end
    decreases end - position
  {
    hide VintAt;
    var id := VintAt(bytes, position, true).value;
    var size := VintAt(bytes, position + id.width, false).value;
    if id.value != DOC_TYPE {
      FoundWithin(bytes, position + id.width + size.width + size.value, end);
    }
  }

  /** A whole element starts at `p`, is no DocType, and ends at `q`. */
  predicate Skips(bytes: seq<byte>, end: nat, p: nat, q: nat) {
    var id := VintAt(bytes, p, true);
    && p < end && id.Some? && id.value.value != 0x4282 && p + id.value.width <= end
    && var size := VintAt(bytes, p + id.value.width, false);
       && size.Some? && q == p + id.value.width + size.value.width + size.value.value && q <= end
  }

  /** A whole DocType element starts at `p`. */
  predicate IsDocType(bytes: seq<byte>, end: nat, p: nat, e: Element) {
    var id := VintAt(bytes, p, true);
    && p < end && id.Some? && id.value.value == 0x4282 && p + id.value.width <= end
    && var size := VintAt(bytes, p + id.value.width, false);
       && size.Some?
       && e == Element(p + id.value.width, size.value.width, p + id.value.width + size.value.width, size.value.value)
       && e.valuePosition + e.valueSize <= end
  }

  /** The element found is the first DocType: every element before it was whole and was none. */
  lemma {:induction false} FindsFirst(bytes: seq<byte>, end: nat, path: seq<nat>, e: Element)
    requires path != [] && IsDocType(bytes, end, path[|path| - 1], e)
    requires forall k :: 0 <= k < |path| - 1 ==> Skips(bytes, end, path[k], path[k + 1])
    ensures FindDocType(bytes, path[0], end) == Some(e)
    decreases |path|
  {
    hide VintAt;
    if |path| > 1 {
      assert Skips(bytes, end, path[0], path[1]);
      FindsFirst(bytes, end, path[1..], e);
    }
  }

  /** The positions of a parsed header follow one another inside it. */
  predicate WellPlaced(info: HeaderInfo, length: nat) {
    && 1 <= info.payloadSizePosition && 1 <= info.payloadSizeWidth <= 8
    && info.headerEnd == info.payloadSizePosition + info.payloadSizeWidth + info.payloadSize <= length
    && info.payloadSizePosition + info.payloadSizeWidth < info.docSizePosition
    && 1 <= info.docSizeWidth <= 8
    && info.docValuePosition == info.docSizePosition + info.docSizeWidth
    && info.docValuePosition + info.docValueSize <= info.headerEnd
    && |info.docType| == info.docValueSize
  }

  function Parse(bytes: seq<byte>): (r: Option<HeaderInfo>)
    ensures r.Some? ==> WellPlaced(r.value, |bytes|)
  {
    match VintAt(bytes, 0, true)
    case None => None
    case Some(id) =>
      if id.value != EBML_HEADER then None
      else
        match VintAt(bytes, id.width, false)
        case None => None
        case Some(payload) =>
          var start := id.width + payload.width;
          if payload.value > |bytes| - start then None
          else
            var end := start + payload.value;
            match FindDocType(bytes, start, end)
            case None => None
            case Some(e) =>
              FoundWithin(bytes, start, end);
              Some(HeaderInfo(id.width, payload.width, payload.value, end, e.sizePosition, e.sizeWidth,
                              e.valuePosition, e.valueSize,
                              bytes[e.valuePosition..e.valuePosition + e.valueSize]))
  }

  method ParseHeaderBytes(bytes: seq<byte>) returns (ok: bool, info: HeaderInfo)
    ensures ok <==> Parse(bytes).Some?
    ensures ok ==> Parse(bytes) == Some(info)
  {
    hide VintAt;
    info := HeaderInfo(0, 0, 0, 0, 0, 0, 0, 0, []);
    var found, id, width, position := ReadVint(bytes, 0, true);
    if !found || id != EBML_HEADER {
      return false, info;
    }
    info := info.(payloadSizePosition := position);
    var payload, payloadWidth;
    found, payload, payloadWidth, position := ReadVint(bytes, position, false);
    if !found {
      return false, info;
    }
    info := info.(payloadSize := payload, payloadSizeWidth := payloadWidth);
    if info.payloadSize > |bytes| - position {
      return false, info;
    }
    info := info.(headerEnd := position + info.payloadSize);
    ghost var start := position;
    while position < info.headerEnd
      invariant FindDocType(bytes, start, info.headerEnd) == FindDocType(bytes, position, info.headerEnd)
      decreases info.headerEnd - position
    {
      var elementId, elementSize, sizeWidth;
      found, elementId, width, position := ReadVint(bytes, position, true);
      if !found || position > info.headerEnd {
        return false, info;
      }
      var sizePosition := position;
      found, elementSize, sizeWidth, position := ReadVint(bytes, position, false);
      if !found || position > info.headerEnd || elementSize > info.headerEnd - position {
        return false, info;
      }
      if elementId == DOC_TYPE {
        info := info.(docSizePosition := sizePosition, docSizeWidth := sizeWidth,
                      docValuePosition := position, docValueSize := elementSize,
                      docType := bytes[position..position + elementSize]);
        return true, info;
      }
      position := position + elementSize;
    }
    return false, info;
  }

  // ---------- Rewriting ----------

  /** The header with its DocType value replaced, and its two sizes not yet. */
  function Replaced(bytes: seq<byte>, info: HeaderInfo): seq<byte>
    requires info.docValuePosition + info.docValueSize <= info.headerEnd <= |bytes|
  {
    bytes[..info.docValuePosition] + MATROSKA + bytes[info.docValuePosition + info.docValueSize..info.headerEnd]
  }

  /** Whether both size fields accept their new values. */
  predicate PatchesFit(info: HeaderInfo)
    requires 1 <= info.docSizeWidth <= 8 && 1 <= info.payloadSizeWidth <= 8
  {
    |MATROSKA| < SizeLimit(info.docSizeWidth) && info.payloadSize + 4 < SizeLimit(info.payloadSizeWidth)
  }

  function Rewritten(bytes: seq<byte>): seq<byte>
    requires Parse(bytes).Some? && Parse(bytes).value.docType == WEBM
  {
    var info := Parse(bytes).value;
    var sized := Patched(Replaced(bytes, info), info.docSizePosition, info.docSizeWidth, |MATROSKA|);
    Patched(sized, info.payloadSizePosition, info.payloadSizeWidth, info.payloadSize + 4)
  }

  /** The part of a finalization between reading the old header and writing the new file. */
  method RewriteHeader(bytes: seq<byte>, info: HeaderInfo) returns (ok: bool, header: seq<byte>)
    requires Parse(bytes) == Some(info) && info.docType == WEBM && |bytes| < UINT64_LIMIT - 4
    ensures ok <==> PatchesFit(info)
    ensures ok ==> header == Rewritten(bytes)
  {
    hide Parse, Patched;
    var delta := |MATROSKA| - info.docValueSize;
    var buffer := new HeaderBuffer(bytes[..info.headerEnd]);
    buffer.Erase(info.docValuePosition, info.docValueSize);
    buffer.Insert(info.docValuePosition, MATROSKA);
    ReplacedBySteps(bytes, info);
    header := [];
    ok := buffer.WriteSize(info.docSizePosition, info.docSizeWidth, |MATROSKA|);
    if ok {
      ok := buffer.WriteSize(info.payloadSizePosition, info.payloadSizeWidth, info.payloadSize + delta);
    }
    if ok {
      header := buffer.data;
    }
  }

  lemma ReplacedBySteps(bytes: seq<byte>, info: HeaderInfo)
    requires info.docValuePosition + info.docValueSize <= info.headerEnd <= |bytes|
    ensures var header := bytes[..info.headerEnd];
            var erased := header[..info.docValuePosition] + header[info.docValuePosition + info.docValueSize..];
            erased[..info.docValuePosition] + MATROSKA + erased[info.docValuePosition..] == Replaced(bytes, info)
  {
  }

  // ---------- The rewritten header parses ----------

  predicate Agree(a: seq<byte>, b: seq<byte>, low: nat, high: nat) {
    high <= |a| && high <= |b| && forall i :: low <= i < high ==> a[i] == b[i]
  }

  /** A buffer holds the field of a size at a position. */
  predicate FieldAt(data: seq<byte>, position: nat, width: nat, value: nat)
    requires 1 <= width <= 8
  {
    position + width <= |data| && data[position..position + width] == SizeField(width, value)
  }

  /** A variable-size integer depends only on the bytes it covers. */
  lemma VintLocal(a: seq<byte>, b: seq<byte>, position: nat, keepMarker: bool)
    requires VintAt(a, position, keepMarker).Some?
    requires Agree(a, b, position, position + VintAt(a, position, keepMarker).value.width)
    ensures VintAt(b, position, keepMarker) == VintAt(a, position, keepMarker)
  {
    var end := position + VintAt(a, position, keepMarker).value.width;
    assert a[position + 1..end] == b[position + 1..end];
  }

  /** Growing the DocType value by four moves nothing the search looks at before it. */
  lemma {:induction false} FindMoved(bytes: seq<byte>, data: seq<byte>, position: nat, end: nat, e: Element)
    requires FindDocType(bytes, position, end) == Some(e) && e.valueSize == 4
    requires Agree(bytes, data, position, e.sizePosition)
    requires VintAt(data, e.sizePosition, false) == Some(Vint(8, e.sizeWidth))
    ensures FindDocType(data, position, end + 4) == Some(e.(valueSize := 8))
    decreases end - position
  {
    hide VintAt;
    var id := VintAt(bytes, position, true).value;
    var sizePosition := position + id.width;
    var size := VintAt(bytes, sizePosition, false).value;
    FoundWithin(bytes, position, end);
    if id.value == DOC_TYPE {
      VintLocal(bytes, data, position, true);
    } else {
      var next := sizePosition + size.width + size.value;
      FoundWithin(bytes, next, end);
      VintLocal(bytes, data, position, true);
      VintLocal(bytes, data, sizePosition, false);
      FindMoved(bytes, data, next, end, e);
    }
  }

  lemma PatchedBytes(data: seq<byte>, position: nat, width: nat, value: nat)
    requires 1 <= width <= 8 && position + width <= |data|
    ensures FieldAt(Patched(data, position, width, value), position, width, value)
    ensures Agree(data, Patched(data, position, width, value), 0, position)
    ensures Agree(data, Patched(data, position, width, value), position + width, |data|)
  {
  }

  /** Every byte of a rewritten header: the two size fields and the value are new, the rest is old. */
  lemma RewrittenBytes(bytes: seq<byte>)
    requires Parse(bytes).Some? && Parse(bytes).value.docType == WEBM
    ensures var info, h := Parse(bytes).value, Rewritten(bytes);
            && |h| == info.headerEnd + 4
            && Agree(bytes, h, 0, info.payloadSizePosition)
            && FieldAt(h, info.payloadSizePosition, info.payloadSizeWidth, info.payloadSize + 4)
            && Agree(bytes, h, info.payloadSizePosition + info.payloadSizeWidth, info.docSizePosition)
            && FieldAt(h, info.docSizePosition, info.docSizeWidth, 8)
            && h[info.docValuePosition..info.docValuePosition + 8] == MATROSKA
            && h[info.docValuePosition + 8..] == bytes[info.docValuePosition + 4..info.headerEnd]
  {
    hide Parse, Patched;
    var info := Parse(bytes).value;
    var replaced := Replaced(bytes, info);
    var sized := Patched(replaced, info.docSizePosition, info.docSizeWidth, 8);
    PatchedBytes(replaced, info.docSizePosition, info.docSizeWidth, 8);
    PatchedBytes(sized, info.payloadSizePosition, info.payloadSizeWidth, info.payloadSize + 4);
    FieldKept(sized, Rewritten(bytes), info.docSizePosition, info.docSizeWidth, 8);
    assert replaced[info.docValuePosition..info.docValuePosition + 8] == MATROSKA;
  }

  lemma FieldKept(a: seq<byte>, b: seq<byte>, position: nat, width: nat, value: nat)
    requires 1 <= width <= 8 && FieldAt(a, position, width, value) && Agree(a, b, position, position + width)
    ensures FieldAt(b, position, width, value)
  {
    assert a[position..position + width] == b[position..position + width];
  }

  /** The information a rewritten header parses to. */
  function Grown(info: HeaderInfo): HeaderInfo {
    info.(payloadSize := info.payloadSize + 4, headerEnd := info.headerEnd + 4,
          docValueSize := 8, docType := MATROSKA)
  }

  /** A field written into a buffer reads back exactly when its value fits. */
  lemma FieldReads(data: seq<byte>, position: nat, width: nat, value: nat)
    requires 1 <= width <= 8 && value < SizeLimit(width) && FieldAt(data, position, width, value)
    ensures VintAt(data, position, false) == Some(Vint(value, width)) <==> value < Carries(width)
  {
    assert Patched(data, position, width, value) == data;
    SizeReadsBack(data, position, width, value);
  }

  lemma SmallSize(width: nat)
    requires 1 <= width <= 8
    ensures 8 < Carries(width)
  {
    WidthTables();
  }

  /** A buffer that starts as a rewritten header does, up to the DocType size field. */
  predicate StartsAs(h: seq<byte>, data: seq<byte>, info: HeaderInfo) {
    Agree(h, data, 0, info.docValuePosition)
  }

  lemma IdKept(bytes: seq<byte>, data: seq<byte>)
    requires Parse(bytes).Some? && Agree(bytes, data, 0, Parse(bytes).value.payloadSizePosition)
    ensures VintAt(data, 0, true) == VintAt(bytes, 0, true)
  {
    VintLocal(bytes, data, 0, true);
  }

  /** The DocType element of the rewritten header is where the old one was. */
  lemma DocTypeMoved(bytes: seq<byte>, data: seq<byte>)
    requires Parse(bytes).Some? && Parse(bytes).value.docType == WEBM && PatchesFit(Parse(bytes).value)
    requires StartsAs(Rewritten(bytes), data, Parse(bytes).value)
    ensures var info := Parse(bytes).value;
            FindDocType(data, info.payloadSizePosition + info.payloadSizeWidth, info.headerEnd + 4)
            == Some(Element(info.docSizePosition, info.docSizeWidth, info.docValuePosition, 8))
  {
    hide VintAt, SizeField;
    var info, h := Parse(bytes).value, Rewritten(bytes);
    var start := info.payloadSizePosition + info.payloadSizeWidth;
    var e := FindDocType(bytes, start, info.headerEnd).value;
    RewrittenBytes(bytes);
    SmallSize(info.docSizeWidth);
    FieldKept(h, data, info.docSizePosition, info.docSizeWidth, 8);
    FieldReads(data, info.docSizePosition, info.docSizeWidth, 8);
    FoundWithin(bytes, start, info.headerEnd);
    FindMoved(bytes, data, start, info.headerEnd, e);
  }

  /** The payload size of the rewritten header is read where the old one was, if it fits there. */
  lemma PayloadMoved(bytes: seq<byte>, data: seq<byte>)
    requires Parse(bytes).Some? && Parse(bytes).value.docType == WEBM && PatchesFit(Parse(bytes).value)
    requires StartsAs(Rewritten(bytes), data, Parse(bytes).value)
    ensures VintAt(data, 0, true) == VintAt(bytes, 0, true)
    ensures var info := Parse(bytes).value;
            VintAt(data, info.payloadSizePosition, false) == Some(Vint(info.payloadSize + 4, info.payloadSizeWidth))
            <==> info.payloadSize + 4 < Carries(info.payloadSizeWidth)
  {
    hide VintAt, SizeField, Rewritten;
    var info := Parse(bytes).value;
    RewrittenBytes(bytes);
    IdKept(bytes, data);
    FieldKept(Rewritten(bytes), data, info.payloadSizePosition, info.payloadSizeWidth, info.payloadSize + 4);
    FieldReads(data, info.payloadSizePosition, info.payloadSizeWidth, info.payloadSize + 4);
  }

  /**
   * The rewritten header followed by anything parses as Matroska, with the same field positions and
   * the payload grown by four, exactly when the grown payload size fits its field.
   */
  lemma RewriteParses(bytes: seq<byte>, tail: seq<byte>)
    requires Parse(bytes).Some? && Parse(bytes).value.docType == WEBM && PatchesFit(Parse(bytes).value)
    ensures var info := Parse(bytes).value;
            Parse(Rewritten(bytes) + tail) == Some(Grown(info))
            <==> info.payloadSize + 4 < Carries(info.payloadSizeWidth)
  {
    hide VintAt, FieldAt, Rewritten, FindDocType, PatchesFit, Carries;
    var info, h := Parse(bytes).value, Rewritten(bytes);
    var data := h + tail;
    RewrittenBytes(bytes);
    PayloadMoved(bytes, data);
    DocTypeMoved(bytes, data);
    var at := info.docValuePosition;
    assert data[at..at + 8] == h[at..at + 8];
    hide Agree, StartsAs;
  }

  // ---------- Finalizing a file ----------

  function Prefix(file: seq<byte>): seq<byte> {
    if |file| <= PREFIX then file else file[..PREFIX]
  }

  /** What the reader sees of a file: its first bytes only. */
  function ReadHeader(file: seq<byte>): Option<HeaderInfo> {
    Parse(Prefix(file))
  }

  datatype Format = WebM | Matroska

  /** Which file operations succeed: opening, writing and installing the new file, opening it again. */
  datatype Files = Files(opens: bool, installs: bool, reopens: bool)

  /** Whether a header is rewritten at all. */
  predicate Rewritable(header: Option<HeaderInfo>) {
    && header.Some? && header.value.docType == WEBM
    && 1 <= header.value.docSizeWidth <= 8 && 1 <= header.value.payloadSizeWidth <= 8 && PatchesFit(header.value)
  }

  /** The file that a rewrite installs. */
  function Installed(file: seq<byte>): seq<byte>
    requires Rewritable(ReadHeader(file))
  {
    Rewritten(Prefix(file)) + file[ReadHeader(file).value.headerEnd..]
  }

  /** A finalization: its answer and the file it leaves. */
  function Finalize(file: seq<byte>, format: Format, files: Files): (bool, seq<byte>) {
    if !files.opens || ReadHeader(file) == None then (false, file)
    else if format == WebM then (ReadHeader(file).value.docType == WEBM, file)
    else if !Rewritable(ReadHeader(file)) || !files.installs then (false, file)
    else
      var written := Installed(file);
      (files.reopens && ReadHeader(written).Some? && ReadHeader(written).value.docType == MATROSKA, written)
  }

  /**
   * Finalization as Matroska succeeds exactly on a readable WebM header whose sizes accept the change
   * and which still fits the reader's prefix after growing by four bytes; a longer one is installed and
   * then rejected by the final check.
   */
  lemma FinalizeSucceeds(file: seq<byte>, format: Format, files: Files)
    ensures var header := ReadHeader(file);
            Finalize(file, format, files).0 <==>
              && files.opens && header.Some? && header.value.docType == WEBM
              && (format == Matroska ==>
                    && Rewritable(header) && files.installs && files.reopens && header.value.headerEnd + 4 <= PREFIX)
    ensures Finalize(file, format, files).1
         == if format == Matroska && files.opens && files.installs && Rewritable(ReadHeader(file))
            then Installed(file) else file
  {
    if Rewritable(ReadHeader(file)) {
      InstalledReads(file);
    }
    hide Parse, Installed, Prefix;
  }

  /** The file that a rewrite installs reads as Matroska exactly if its header ends within the prefix. */
  lemma InstalledReads(file: seq<byte>)
    requires Rewritable(ReadHeader(file))
    ensures var header := ReadHeader(Installed(file));
            (header.Some? && header.value.docType == MATROSKA) <==> ReadHeader(file).value.headerEnd + 4 <= PREFIX
  {
    hide Parse, Rewritten, FieldAt;
    var shown := Prefix(file);
    var info, h := Parse(shown).value, Rewritten(shown);
    var written := h + file[info.headerEnd..];
    RewrittenBytes(shown);
    PayloadCarried(info);
    if info.headerEnd + 4 <= PREFIX {
      var tail := Prefix(written)[|h|..];
      assert Prefix(written) == h + tail;
      RewriteParses(shown, tail);
    } else {
      Overlong(shown, Prefix(written));
    }
  }

  /** A payload inside the reader's prefix fits whatever field accepts it. */
  lemma PayloadCarried(info: HeaderInfo)
    requires WellPlaced(info, PREFIX) && PatchesFit(info)
    ensures info.payloadSize + 4 < Carries(info.payloadSizeWidth)
  {
    WidthTables();
  }

  lemma Overlong(bytes: seq<byte>, shown: seq<byte>)
    requires Parse(bytes).Some? && Parse(bytes).value.docType == WEBM && PatchesFit(Parse(bytes).value)
    requires |shown| == PREFIX < Parse(bytes).value.headerEnd + 4
    requires StartsAs(Rewritten(bytes), shown, Parse(bytes).value)
    requires Parse(bytes).value.payloadSize + 4 < Carries(Parse(bytes).value.payloadSizeWidth)
    ensures Parse(shown) == None
  {
    PayloadMoved(bytes, shown);
  }

  // ---------- A header that is installed and then rejected ----------

  /** An EBML header of 4096 bytes: a DocType element and a Void element that fills the rest. */
  function Padded(): seq<byte> {
    [0x1A, 0x45, 0xDF, 0xA3, 0x4F, 0xFA, 0x42, 0x82, 0x84, 0x77, 0x65, 0x62, 0x6D, 0xEC, 0x4F, 0xF0]
    + seq(4080, _ => 0)
  }

  function PaddedInfo(): HeaderInfo {
    HeaderInfo(4, 2, 4090, 4096, 8, 1, 9, 4, WEBM)
  }

  lemma PaddedVints(bytes: seq<byte>)
    requires |bytes| == 4096
    requires bytes[..9] == [0x1A, 0x45, 0xDF, 0xA3, 0x4F, 0xFA, 0x42, 0x82, 0x84]
    ensures VintAt(bytes, 0, true) == Some(Vint(EBML_HEADER, 4))
    ensures VintAt(bytes, 4, false) == Some(Vint(4090, 2))
    ensures VintAt(bytes, 6, true) == Some(Vint(DOC_TYPE, 2))
    ensures VintAt(bytes, 8, false) == Some(Vint(4, 1))
  {
    MarkerTable();
    BigEndianFour(0x1A, 0x45, 0xDF, 0xA3);
    BigEndianTwo(0x0F, 0xFA);
    BigEndianTwo(0x42, 0x82);
    BigEndianOne(4);
    assert forall i :: 0 <= i < 9 ==> bytes[i] == bytes[..9][i];
    assert [bytes[0]] + bytes[1..4] == [0x1A, 0x45, 0xDF, 0xA3];
    assert [bytes[4] - 0x40] + bytes[5..6] == [0x0F, 0xFA];
    assert [bytes[6]] + bytes[7..8] == [0x42, 0x82];
    assert [bytes[8] - 0x80] + bytes[9..9] == [4];
  }

  lemma PaddedParses()
    ensures Parse(Padded()) == Some(PaddedInfo())
  {
    var bytes := Padded();
    PaddedVints(bytes);
    hide VintAt;
    assert FindDocType(bytes, 6, 4096) == Some(Element(8, 1, 9, 4));
    assert bytes[9..13] == WEBM;
  }

  /** The padded header is a valid WebM header, and finalizing its file as Matroska fails but changes it. */
  lemma PaddedIsInstalledAndRejected()
    ensures Finalize(Padded(), WebM, Files(true, true, true)) == (true, Padded())
    ensures var (ok, file) := Finalize(Padded(), Matroska, Files(true, true, true));
            !ok && file == Rewritten(Padded()) && |file| == 4100
  {
    PaddedParses();
    hide Parse;
    assert Prefix(Padded()) == Padded();
    WidthTables();
    assert PatchesFit(PaddedInfo());
    FinalizeSucceeds(Padded(), WebM, Files(true, true, true));
    FinalizeSucceeds(Padded(), Matroska, Files(true, true, true));
    RewrittenBytes(Padded());
    assert Padded()[4096..] == [];
  }

  // ---------- The shortest header ----------

  /** The shortest WebM header, byte by byte. */
  function ShortWebm(): seq<byte> {
    [0x1A, 0x45, 0xDF, 0xA3, 0x87, 0x42, 0x82, 0x84, 0x77, 0x65, 0x62, 0x6D]
  }

  /** The header it becomes. */
  function ShortMatroska(): seq<byte> {
    [0x1A, 0x45, 0xDF, 0xA3, 0x8B, 0x42, 0x82, 0x88, 0x6D, 0x61, 0x74, 0x72, 0x6F, 0x73, 0x6B, 0x61]
  }

  lemma ShortVints(bytes: seq<byte>)
    requires |bytes| >= 12 && bytes[..12] == ShortWebm()
    ensures VintAt(bytes, 0, true) == Some(Vint(0x1A45DFA3, 4))
    ensures VintAt(bytes, 4, false) == Some(Vint(7, 1))
    ensures VintAt(bytes, 5, true) == Some(Vint(0x4282, 2))
    ensures VintAt(bytes, 7, false) == Some(Vint(4, 1))
  {
    MarkerTable();
    BigEndianFour(0x1A, 0x45, 0xDF, 0xA3);
    BigEndianTwo(0x42, 0x82);
    BigEndianOne(7);
    BigEndianOne(4);
    assert forall i :: 0 <= i < 12 ==> bytes[i] == ShortWebm()[i];
    assert [bytes[0]] + bytes[1..4] == [0x1A, 0x45, 0xDF, 0xA3];
    assert [bytes[4] - 0x80] + bytes[5..5] == [7];
    assert [bytes[5]] + bytes[6..7] == [0x42, 0x82];
    assert [bytes[7] - 0x80] + bytes[8..8] == [4];
  }

  lemma ShortParses(bytes: seq<byte>)
    requires |bytes| >= 12 && bytes[..12] == ShortWebm()
    ensures Parse(bytes) == Some(HeaderInfo(4, 1, 7, 12, 7, 1, 8, 4, WEBM))
  {
    ShortVints(bytes);
    hide VintAt;
    assert FindDocType(bytes, 5, 12) == Some(Element(7, 1, 8, 4));
    assert bytes[8..12] == bytes[..12][8..12] == WEBM;
  }

  lemma ShortRewritten(bytes: seq<byte>)
    requires |bytes| >= 12 && bytes[..12] == ShortWebm()
    ensures Parse(bytes).Some? && Parse(bytes).value.docType == WEBM && Rewritten(bytes) == ShortMatroska()
  {
    ShortParses(bytes);
    RewrittenBytes(bytes);
    var h := Rewritten(bytes);
    hide Parse, Rewritten;
    ShortFields();
    assert h[4..5] == [0x8B] && h[7..8] == [0x88];
    forall i | 0 <= i < 16
      ensures h[i] == ShortMatroska()[i]
    {
      assert i < 12 ==> bytes[i] == bytes[..12][i];
      assert 8 <= i < 16 ==> h[i] == h[8..16][i - 8];
    }
  }

  lemma ShortFields()
    ensures SizeField(1, 11) == [0x8B] && SizeField(1, 8) == [0x88]
  {
    MarkerTable();
    assert SizeBytes(1, 11) == [11] && SizeBytes(1, 8) == [8];
  }

  /** Finalizing a file with the shortest header: twelve bytes become these sixteen, and the rest stays. */
  lemma ShortFinalized(tail: seq<byte>)
    ensures Finalize(ShortWebm() + tail, Matroska, Files(true, true, true)) == (true, ShortMatroska() + tail)
    ensures Finalize(ShortWebm() + tail, WebM, Files(true, true, true)) == (true, ShortWebm() + tail)
  {
    var file := ShortWebm() + tail;
    assert Prefix(file)[..12] == ShortWebm();
    ShortParses(Prefix(file));
    ShortRewritten(Prefix(file));
    hide Parse, Rewritten;
    WidthTables();
    assert PatchesFit(ReadHeader(file).value);
    FinalizeSucceeds(file, Matroska, Files(true, true, true));
    FinalizeSucceeds(file, WebM, Files(true, true, true));
    assert file[12..] == tail;
  }
}
