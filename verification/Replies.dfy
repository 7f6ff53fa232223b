/** Reading messages: processMessage, OP_COMPRESSED, and the documents of OP_REPLY and OP_MSG. */
module Replies {
  import opened Bytes
  import opened Framing
  import opened Codec
  import opened FramingProofs

  // ---------- JavaScript buffer access ----------

  /** data[i], with undefined counting as 0 in the bit operations that follow. */
  function ByteAt(data: seq<byte>, i: int): byte {
    if 0 <= i < |data| then data[i] else 0
  }

  function SizeAt(data: seq<byte>, i: int): int {
    Int32At([ByteAt(data, i), ByteAt(data, i + 1), ByteAt(data, i + 2), ByteAt(data, i + 3)], 0)
  }

  lemma SizeInside(data: seq<byte>, i: nat)
    requires i + 4 <= |data|
    ensures SizeAt(data, i) == Int32At(data, i)
  {
  }

  function Clamp(data: seq<byte>, i: int): (k: nat)
    ensures k <= |data|
  {
    if i < 0 then (if i + |data| < 0 then 0 else i + |data|) else if i > |data| then |data| else i
  }

  /** Buffer.slice: a negative position counts from the end, and both ends are clamped. */
  function SliceOf(data: seq<byte>, start: int, end: int): seq<byte> {
    if Clamp(data, start) <= Clamp(data, end) then data[Clamp(data, start)..Clamp(data, end)] else []
  }

  // ---------- OP_REPLY ----------

  /** The document at index and where the next one is taken to start. */
  function DocumentAt(data: seq<byte>, index: int): (seq<byte>, int) {
    (SliceOf(data, index, index + SizeAt(data, index)), index + SizeAt(data, index))
  }

  function DocumentsFrom(data: seq<byte>, index: int, n: nat): (r: seq<seq<byte>>)
    ensures |r| == n
    decreases n
  {
    if n == 0 then [] else
    var (document, end) := DocumentAt(data, index);
    [document] + DocumentsFrom(data, end, n - 1)
  }

  lemma DocumentsStep(data: seq<byte>, index: int, n: nat)
    requires n > 0
    ensures var all, end := DocumentsFrom(data, index, n), index + SizeAt(data, index);
      all[0] == SliceOf(data, index, end) && all[1..] == DocumentsFrom(data, end, n - 1)
  {
  }

  /** An OP_REPLY whose documents are kept as bytes (the `raw` option). */
  class Response {
    const data: seq<byte>
    const responseFlags: int
    const cursorId: int
    const startingFrom: int
    const numberReturned: nat
    var index: int
    var documents: seq<seq<byte>>
    var parsed: bool

    constructor (body: seq<byte>)
      requires !ConstructorThrows(OP_REPLY, body)
      ensures data == body && !parsed
      ensures responseFlags == Int32At(body, 0) && startingFrom == Int32At(body, 12)
      ensures Some((cursorId, body[12..])) == TakeInt64(body[4..])
      ensures numberReturned == Int32At(body, 16) && |documents| == numberReturned
    {
      data := body;
      responseFlags := Int32At(body, 0);
      cursorId := Int32At(body, 4) % TWO_TO_THE_32 + Int32At(body, 8) * TWO_TO_THE_32;
      startingFrom := Int32At(body, 12);
      numberReturned := Int32At(body, 16);
      documents := seq(Int32At(body, 16), _ => []);
      index, parsed := 0, false;
      assert body[4..][0..4] == body[4..8] && body[8..][0..4] == body[8..12];
      assert body[4..][4..] == body[8..] && body[8..][4..] == body[12..];
    }

    method Parse()
      requires |documents| == numberReturned
      modifies this
      ensures parsed
      ensures documents == if old(parsed) then old(documents) else DocumentsFrom(data, 20, numberReturned)
    {
      if parsed {
        return;
      }
      documents, index := ParseDocuments(data, documents);
      parsed := true;
    }

    /** Fills every slot with the next document. */
    static method ParseDocuments(data: seq<byte>, slots: seq<seq<byte>>)
      returns (documents: seq<seq<byte>>, index: int)
      ensures documents == DocumentsFrom(data, 20, |slots|)
    {
      hide SizeAt, SliceOf, DocumentsFrom, DocumentAt, Clamp;
      ghost var all := DocumentsFrom(data, 20, |slots|);
      documents, index := slots, 20;
      for i := 0 to |slots|
        invariant |documents| == |slots|
        invariant forall k | 0 <= k < i :: documents[k] == all[k]
        invariant DocumentsFrom(data, index, |slots| - i) == all[i..]
      {
        DocumentsStep(data, index, |slots| - i);
        ghost var rest := all[i..];
        assert rest[0] == all[i] && rest[1..] == all[i + 1..];
        var bsonSize := SizeAt(data, index);
        documents := documents[i := SliceOf(data, index, index + bsonSize)];
        index := index + bsonSize;
      }
    }
  }

  function Join(ds: seq<Document>): seq<byte> {
    if ds == [] then [] else ds[0] + Join(ds[1..])
  }

  /** The body of an OP_REPLY as a server writes it. */
  function ReplyBody(flags: int, cursorId: int, startingFrom: int, ds: seq<Document>): seq<byte> {
    Int32Bytes(flags) + (Int64Bytes(cursorId) + (Int32Bytes(startingFrom) + (Int32Bytes(|ds|) + Join(ds))))
  }

  lemma {:induction false} DocumentsRead(data: seq<byte>, index: nat, ds: seq<Document>)
    requires index <= |data| && data[index..] == Join(ds)
    ensures DocumentsFrom(data, index, |ds|) == ds
    decreases |ds|
  {
    hide DocumentAt;
    if |ds| == 0 {
      assert DocumentsFrom(data, index, 0) == [];
    } else {
      var d, later, end := ds[0], ds[1..], index + |ds[0]|;
      DocumentFrontAt(data, index, d, Join(later));
      DocumentsRead(data, end, later);
      assert DocumentsFrom(data, index, |ds|) == [d] + later;
    }
  }

  lemma DocumentFrontAt(data: seq<byte>, index: nat, d: Document, t: seq<byte>)
    requires index <= |data| && data[index..] == d + t
    ensures index + |d| <= |data| && data[index + |d|..] == t
    ensures DocumentAt(data, index) == (d, index + |d|)
  {
    var s := data[index..];
    assert |s| == |d| + |t|;
    Int32AtDrop(data, index);
    Int32AtPrefix(d, s, 0);
    SizeInside(data, index);
    assert data[index..index + |d|] == s[..|d|];
    assert data[index + |d|..] == s[|d|..];
  }

  /** Every document of a reply is read back, and so is every number that fits its field. */
  lemma ReplyRoundTrip(flags: int, cursorId: int, startingFrom: int, ds: seq<Document>)
    requires IsInt32(flags) && IsInt64(cursorId) && IsInt32(startingFrom) && IsInt32(|ds|)
    ensures var b := ReplyBody(flags, cursorId, startingFrom, ds);
      && !ConstructorThrows(OP_REPLY, b)
      && Int32At(b, 0) == flags && TakeInt64(b[4..]) == Some((cursorId, b[12..]))
      && Int32At(b, 12) == startingFrom && Int32At(b, 16) == |ds|
      && DocumentsFrom(b, 20, |ds|) == ds
  {
    var b := ReplyBody(flags, cursorId, startingFrom, ds);
    var documents := Join(ds);
    var rest := Int32Bytes(startingFrom) + (Int32Bytes(|ds|) + documents);
    assert b[0..] == b;
    Int32Next(b, 0, flags, Int64Bytes(cursorId) + rest);
    Int64Front(cursorId, rest);
    assert b[12..] == b[4..][8..] == rest;
    Int32Next(b, 12, startingFrom, Int32Bytes(|ds|) + documents);
    Int32Next(b, 16, |ds|, documents);
    DocumentsRead(b, 20, ds);
  }

  // ---------- OP_MSG ----------

  /** The documents collected, and whether readUInt32LE ran off the end. */
  datatype Sections = Sections(documents: seq<seq<byte>>, threw: bool)

  /** What stands at the front of s: a byte to step over, a cut-off section, or a document and the rest. */
  datatype Section = Other(rest: seq<byte>) | CutOff | DocumentSection(bin: seq<byte>, rest: seq<byte>)

  function SectionOf(s: seq<byte>): (r: Section)
    requires s != []
    ensures r.CutOff? || |r.rest| < |s|
  {
    if s[0] != 0 then Other(s[1..])
    else if |s| < 5 then CutOff
    else
      var size := Int32At(s, 1) % TWO_TO_THE_32;
      DocumentSection(SliceOf(s, 1, 1 + size), From(s, 1 + size))
  }

  function Prepended(bin: seq<byte>, r: Sections): Sections {
    Sections([bin] + r.documents, r.threw)
  }

  /** What parsing makes of the bytes s, from the first payload type byte on. */
  function SectionsOf(s: seq<byte>): Sections
    decreases |s|
  {
    if s == [] then Sections([], false) else
    match SectionOf(s)
    case Other(rest) => SectionsOf(rest)
    case CutOff => Sections([], true)
    case DocumentSection(bin, rest) => Prepended(bin, SectionsOf(rest))
  }

  function From(s: seq<byte>, i: nat): seq<byte> {
    if i <= |s| then s[i..] else []
  }

  class BinMsg {
    const data: seq<byte>
    const responseFlags: int
    var index: nat
    var documents: seq<seq<byte>>
    var parsed: bool

    constructor (body: seq<byte>)
      requires !ConstructorThrows(OP_MSG, body)
      ensures data == body && responseFlags == Int32At(body, 0) && documents == [] && !parsed
    {
      data, responseFlags := body, Int32At(body, 0);
      index, documents, parsed := 0, [], false;
    }

    /** One section, or one byte that is no document section. */
    method ParseSection() returns (threw: bool)
      requires index < |data|
      modifies this
      ensures index > old(index) && parsed == old(parsed)
      ensures old(Sum(documents, data, index)) ==
        if threw then Sections(documents, true) else Sum(documents, data, index)
    {
      hide Sum, SliceOf, Int32At;
      SumStep(documents, data, index);
      var payloadType := data[index];
      index := index + 1;
      if payloadType == 0 {
        if index + 4 > |data| {
          return true;
        }
        var bsonSize := Int32At(data, index) % TWO_TO_THE_32;
        documents := documents + [SliceOf(data, index, index + bsonSize)];
        index := index + bsonSize;
      }
      threw := false;
    }

    /** Walks the sections; `threw` when a document's length field lies beyond the data. */
    method Parse() returns (threw: bool)
      requires |data| >= 4
      modifies this
      ensures old(parsed) ==> !threw && documents == old(documents)
      ensures !old(parsed) ==>
        documents == old(documents) + SectionsOf(data[4..]).documents && threw == SectionsOf(data[4..]).threw
      ensures parsed == !threw
    {
      hide Sum, SectionsOf;
      threw := false;
      if parsed {
        return;
      }
      index := 4;
      SumEnds(documents, data);
      while index < |data| && !threw
        invariant if threw then Sections(documents, true) == old(Sum(documents, data, 4))
                  else Sum(documents, data, index) == old(Sum(documents, data, 4))
        invariant !parsed
        decreases !threw, |data| - index
      {
        threw := ParseSection();
      }
      SumEnds(documents, data);
      parsed := !threw;
    }
  }

  /** The documents collected before index i, and what the rest will add. */
  function Sum(documents: seq<seq<byte>>, data: seq<byte>, i: nat): Sections {
    var rest := SectionsOf(From(data, i));
    Sections(documents + rest.documents, rest.threw)
  }

  lemma SumEnds(documents: seq<seq<byte>>, data: seq<byte>)
    ensures |data| >= 4 ==>
      var rest := SectionsOf(data[4..]);
      Sum(documents, data, 4) == Sections(documents + rest.documents, rest.threw)
    ensures forall i: nat | i >= |data| :: Sum(documents, data, i) == Sections(documents, false)
  {
  }

  lemma Shift<T>(a: seq<T>, x: T, b: seq<T>)
    ensures a + ([x] + b) == a + [x] + b
  {
  }

  lemma SumStep(documents: seq<seq<byte>>, data: seq<byte>, i: nat)
    requires i < |data|
    ensures Sum(documents, data, i) ==
      if data[i] != 0 then Sum(documents, data, i + 1)
      else if i + 5 > |data| then Sections(documents, true)
      else
        var size := Int32At(data, i + 1) % TWO_TO_THE_32;
        Sum(documents + [SliceOf(data, i + 1, i + 1 + size)], data, i + 1 + size)
  {
    SectionAt(data, i);
    match SectionOf(From(data, i))
    case Other(rest) =>
    case CutOff =>
    case DocumentSection(bin, rest) => Shift(documents, bin, SectionsOf(rest).documents);
  }

  /** What the loop reads at index i. */
  lemma SectionAt(data: seq<byte>, i: nat)
    requires i < |data|
    ensures SectionOf(From(data, i)) ==
      if data[i] != 0 then Other(From(data, i + 1))
      else if i + 5 > |data| then CutOff
      else
        var size := Int32At(data, i + 1) % TWO_TO_THE_32;
        DocumentSection(SliceOf(data, i + 1, i + 1 + size), From(data, i + 1 + size))
  {
    var s := From(data, i);
    assert s[1..] == From(data, i + 1);
    if i + 5 <= |data| {
      Int32AtDrop(s, 1);
      Int32AtDrop(data, i + 1);
      SlicesAgree(data, i, Int32At(data, i + 1) % TWO_TO_THE_32);
    }
  }

  lemma SlicesAgree(data: seq<byte>, i: nat, size: nat)
    requires i < |data|
    ensures SliceOf(data[i..], 1, 1 + size) == SliceOf(data, i + 1, i + 1 + size)
    ensures From(data[i..], 1 + size) == From(data, i + 1 + size)
  {
    var s := data[i..];
    var end := if 1 + size <= |s| then 1 + size else |s|;
    forall k | 0 <= k < end - 1 ensures s[1..end][k] == data[i + 1..i + end][k] {
      assert s[k + 1] == data[i + k + 1];
    }
    assert s[1..end] == data[i + 1..i + end];
  }

  function JoinSections(ds: seq<Document>): seq<byte> {
    if ds == [] then [] else [0] + (ds[0] + JoinSections(ds[1..]))
  }

  lemma SectionFront(d: Document, t: seq<byte>)
    ensures SectionOf([0] + (d + t)) == DocumentSection(d, t)
  {
    var s := [0] + (d + t);
    var size := Int32At(s, 1) % TWO_TO_THE_32;
    assert size == |d| by {
      assert s[1..] == d + t;
      Int32AtPrefix(d, d + t, 0);
      Int32AtDrop(s, 1);
    }
    assert SliceOf(s, 1, 1 + size) == d;
    assert From(s, 1 + size) == t;
  }

  lemma PrependDocument(ds: seq<Document>, more: seq<seq<byte>>)
    requires ds != []
    ensures [ds[0]] + (ds[1..] + more) == ds + more
  {
  }

  /** Any list of document sections is read back in order, whatever follows it. */
  lemma {:induction false} SectionsRead(ds: seq<Document>, tail: seq<byte>)
    ensures SectionsOf(JoinSections(ds) + tail)
      == Sections(ds + SectionsOf(tail).documents, SectionsOf(tail).threw)
  {
    if ds == [] {
      assert [] + tail == tail;
    } else {
      var d, j := ds[0], JoinSections(ds[1..]);
      assert [0] + (d + j) + tail == [0] + (d + (j + tail));
      SectionFront(d, j + tail);
      SectionsRead(ds[1..], tail);
      PrependDocument(ds, SectionsOf(tail).documents);
    }
  }

  /** Msg.toBin followed by BinMsg.parse gives back the flags and the document. */
  lemma MsgRead(op: Operation)
    requires op.Msg?
    ensures var body := Body(op);
      && !ConstructorThrows(OP_MSG, body)
      && Int32At(body, 0) == MsgFlagBits(op)
      && SectionsOf(body[4..]) == Sections([op.command], false)
  {
    var body := Body(op);
    assert body[0..] == body;
    Int32Next(body, 0, MsgFlagBits(op), [0] + op.command);
    assert body[4..] == [0] + (op.command + []);
    SectionFront(op.command, []);
  }

  /**
   * The checksum that OP_MSG allows after the sections is read as more sections: the message parses
   * if and only if none of the four checksum bytes is zero.
   */
  lemma ChecksumIsReadAsSections(ds: seq<Document>, checksum: seq<byte>)
    requires |checksum| == 4
    ensures var r := SectionsOf(JoinSections(ds) + checksum);
      r.documents == ds && (!r.threw <==> 0 !in checksum)
  {
    SectionsRead(ds, checksum);
    ShortTail(checksum);
    assert ds + [] == ds;
  }

  /** Fewer than five bytes cannot hold a section. */
  lemma {:induction false} ShortTail(s: seq<byte>)
    requires |s| < 5
    ensures SectionsOf(s) == Sections([], 0 in s)
  {
    if s != [] && s[0] != 0 {
      ShortTail(s[1..]);
      assert s == [s[0]] + s[1..];
    }
  }

  // ---------- OP_COMPRESSED ----------

  /** What processMessage makes of a framed message. */
  datatype Processed =
    | Delivered(header: Header, body: seq<byte>)
    | Corrupt
    | DecompressionFailed
    | Exception

  datatype Compressor = Snappy | Zlib

  function CompressorId(c: Compressor): byte { if c.Snappy? then 1 else 2 }

  function Deliver(header: Header, body: seq<byte>): Processed {
    if ConstructorThrows(header.opCode, body) then Exception else Delivered(header, body)
  }

  /** `inflate` stands for snappy and zlib; any other compressor id passes the bytes through. */
  function ProcessMessage(message: seq<byte>, inflate: (Compressor, seq<byte>) -> Option<seq<byte>>): Processed {
    if |message| < HEADER_SIZE then Exception else
    var header := ParseHeader(message);
    if header.opCode != OP_COMPRESSED then Deliver(header, message[HEADER_SIZE..])
    else if |message| < 24 then Exception
    else
      var length, opCode := Int32At(message, 20), Int32At(message, 16);
      var data := if |message| > 24 then message[25..] else [];
      var body :=
        if |message| > 24 && message[24] == 1 then inflate(Snappy, data)
        else if |message| > 24 && message[24] == 2 then inflate(Zlib, data)
        else Some(data);
      if body.None? then DecompressionFailed
      else if |body.value| != length then Corrupt
      else Deliver(Header(length, header.requestId, header.responseTo, opCode), body.value)
  }

  /** The framing loop's own test agrees: it sees an exception unless the answer comes later. */
  lemma ThrowsWhenSynchronous(message: seq<byte>, inflate: (Compressor, seq<byte>) -> Option<seq<byte>>)
    requires |message| >= 24 && Int32At(message, 12) == OP_COMPRESSED ==> !DecompressesLater(message)
    ensures ProcessThrows(message) <==> ProcessMessage(message, inflate) == Exception
  {
  }

  /** The bytes and opcode that are left to parse, once any compression is undone and its length checked. */
  function Inflated(message: seq<byte>, inflate: (Compressor, seq<byte>) -> Option<seq<byte>>): Option<(int, seq<byte>)>
    requires |message| >= 24
  {
    var data := if |message| == 24 then [] else message[25..];
    var body :=
      if |message| == 24 || (message[24] != 1 && message[24] != 2) then Some(data)
      else inflate(if message[24] == 1 then Snappy else Zlib, data);
    if body.Some? && |body.value| == Int32At(message, 20) then Some((Int32At(message, 16), body.value)) else None
  }

  /**
   * Exactly which messages raise an exception: those too short for their header, for the four bytes of an OP_MSG's
   * flags, or for the twenty of a reply's fields, and replies that announce fewer than no documents.
   */
  lemma ExceptionExact(message: seq<byte>, inflate: (Compressor, seq<byte>) -> Option<seq<byte>>)
    ensures ProcessMessage(message, inflate) == Exception <==>
      || |message| < 16
      || (Int32At(message, 12) == OP_MSG && |message| < 20)
      || (Int32At(message, 12) != OP_MSG && Int32At(message, 12) != OP_COMPRESSED
          && (|message| < 36 || Int32At(message, 32) < 0))
      || (Int32At(message, 12) == OP_COMPRESSED
          && (|message| < 24
              || (Inflated(message, inflate).Some?
                  && var (opCode, body) := Inflated(message, inflate).value;
                     if opCode == OP_MSG then |body| < 4 else |body| < 20 || Int32At(body, 16) < 0)))
  {
    if |message| >= 36 {
      assert message[16..][16..20] == message[32..36];
    }
  }

  function Wrapped(original: seq<byte>, requestId: int, id: byte, compressed: seq<byte>): seq<byte>
    requires |original| >= HEADER_SIZE
  {
    HeaderBytes(HEADER_SIZE + COMPRESSION_DETAILS_SIZE + |compressed|, requestId, 0, OP_COMPRESSED)
    + (Int32Bytes(Int32At(original, 12)) + (Int32Bytes(|original| - HEADER_SIZE) + ([id] + compressed)))
  }

  /** None when compression failed or a length does not fit its field. */
  method SerializeCommand(original: seq<seq<byte>>, requestId: int, agreed: Option<Compressor>, canCompress: bool,
                          deflate: (Compressor, seq<byte>) -> Option<seq<byte>>)
    returns (buffers: Option<seq<seq<byte>>>)
    requires |Concat(original)| >= HEADER_SIZE
    ensures agreed.None? || !canCompress ==> buffers == Some(original)
    ensures agreed.Some? && canCompress && buffers.Some? ==>
      var all := Concat(original);
      var z := deflate(agreed.value, all[HEADER_SIZE..]);
      z.Some? && Concat(buffers.value) == Wrapped(all, requestId, CompressorId(agreed.value), z.value)
    ensures agreed.Some? && canCompress && buffers.None? ==>
      var all := Concat(original);
      var z := deflate(agreed.value, all[HEADER_SIZE..]);
      || z.None? || !IsInt32(requestId) || !IsInt32(|all| - HEADER_SIZE)
      || !IsInt32(HEADER_SIZE + COMPRESSION_DETAILS_SIZE + |z.value|)
  {
    if agreed.None? || !canCompress {
      return Some(original);
    }
    var all := Concat(original);
    var messageToBeCompressed := all[HEADER_SIZE..];
    var originalOpCode := Int32At(all, 12);
    var compressed := deflate(agreed.value, messageToBeCompressed);
    if compressed.None? {
      return None;
    }
    var length := HEADER_SIZE + COMPRESSION_DETAILS_SIZE + |compressed.value|;
    if !IsInt32(length) || !IsInt32(requestId) || !IsInt32(|messageToBeCompressed|) {
      return None;
    }
    var msgHeader := new byte[HEADER_SIZE];
    var index := WriteHeader(msgHeader, requestId, OP_COMPRESSED, length);
    assert msgHeader[..index] == msgHeader[..];
    var details := new byte[COMPRESSION_DETAILS_SIZE];
    index := Write32(details, 0, originalOpCode);
    index := Write32(details, index, |messageToBeCompressed|);
    details[8] := CompressorId(agreed.value);
    assert details[..8] == Int32Bytes(originalOpCode) + Int32Bytes(|messageToBeCompressed|);
    assert details[..] == details[..8] + [details[8]];
    buffers := Some([msgHeader[..], details[..], compressed.value]);
    ThreeConcat(msgHeader[..], details[..], compressed.value);
    Regroup([], Int32Bytes(originalOpCode), Int32Bytes(|messageToBeCompressed|), [details[8]] + compressed.value);
    Regroup(Int32Bytes(originalOpCode), Int32Bytes(|messageToBeCompressed|), [details[8]], compressed.value);
  }

  /**
   * Wrapping and unwrapping: for any compressor that its decompressor undoes, a wrapped message is
   * delivered with the original opcode, request id and body.
   */
  lemma CompressionRoundTrip(original: seq<byte>, requestId: int, c: Compressor, compressed: seq<byte>,
                             inflate: (Compressor, seq<byte>) -> Option<seq<byte>>)
    requires |original| >= HEADER_SIZE && IsInt32(requestId) && IsInt32(|original|)
    requires inflate(c, compressed) == Some(original[HEADER_SIZE..])
    ensures ProcessMessage(Wrapped(original, requestId, CompressorId(c), compressed), inflate)
      == Deliver(Header(|original| - HEADER_SIZE, requestId, 0, Int32At(original, 12)), original[HEADER_SIZE..])
  {
    var id := CompressorId(c);
    var length := HEADER_SIZE + COMPRESSION_DETAILS_SIZE + |compressed|;
    var opCode, size := Int32At(original, 12), |original| - HEADER_SIZE;
    var tail := Int32Bytes(opCode) + (Int32Bytes(size) + ([id] + compressed));
    var m := Wrapped(original, requestId, id, compressed);
    HeaderFront(length, requestId, 0, OP_COMPRESSED, tail);
    Int32Next(m, 16, opCode, Int32Bytes(size) + ([id] + compressed));
    Int32Next(m, 20, size, [id] + compressed);
    assert m[24] == m[24..][0] && m[25..] == m[24..][1..] == compressed;
  }

  /**
   * The server's side: the request inside an OP_COMPRESSED message, by the layout of the OP_COMPRESSED
   * specification. It keeps the outer message's id and must inflate to the announced size.
   */
  function Unwrapped(message: seq<byte>, inflate: (Compressor, seq<byte>) -> Option<seq<byte>>): Option<Request> {
    if |message| < HEADER_SIZE + COMPRESSION_DETAILS_SIZE then None else
    var header := ParseHeader(message);
    var opCode, size, id := Int32At(message, 16), Int32At(message, 20), message[24];
    if header.length != |message| || header.opCode != OP_COMPRESSED || (id != 1 && id != 2) then None else
    var body :- inflate(if id == 1 then Snappy else Zlib, message[25..]);
    if |body| != size then None else
    var op :- DecodeBody(opCode, body);
    Some(Request(header.requestId, op))
  }

  /**
   * A compressed request reaches the server as the request that was asked for, exactly when that fits its fields. The
   * layout allows it for any request; the driver wraps queries and OP_MSG only, for on the other two the test whether a
   * command may be compressed raises a TypeError first.
   */
  lemma CompressedRequest(r: Request, c: Compressor, compressed: seq<byte>,
                          inflate: (Compressor, seq<byte>) -> Option<seq<byte>>)
    requires IsInt32(HEADER_SIZE + COMPRESSION_DETAILS_SIZE + |compressed|) && IsInt32(Length(r.op))
    requires inflate(c, compressed) == Some(Body(r.op))
    ensures Unwrapped(Wrapped(Encode(r), r.requestId, CompressorId(c), compressed), inflate) == Some(r) <==>
      IsInt32(r.requestId) && Fits(r.op)
  {
    var op, id, size := OpCode(r.op), CompressorId(c), |Body(r.op)|;
    var length := HEADER_SIZE + COMPRESSION_DETAILS_SIZE + |compressed|;
    var tail := Int32Bytes(op) + (Int32Bytes(size) + ([id] + compressed));
    HeaderFront(Length(r.op), r.requestId, 0, op, Body(r.op));
    var m := Wrapped(Encode(r), r.requestId, id, compressed);
    HeaderFront(length, r.requestId, 0, OP_COMPRESSED, tail);
    Int32Next(m, 16, op, Int32Bytes(size) + ([id] + compressed));
    Int32Next(m, 20, size, [id] + compressed);
    assert m[24] == m[24..][0] && m[25..] == m[24..][1..] == compressed;
    BodyRoundTrip(r.op);
  }

  lemma BodyRoundTrip(op: Operation)
    requires IsInt32(Length(op))
    ensures DecodeBody(OpCode(op), Body(op)) == Some(op) <==> Fits(op)
  {
    RoundTrip(Request(0, op));
    HeaderFront(Length(op), 0, 0, OpCode(op), Body(op));
  }

  // ---------- requests in a row ----------

  function Encodings(rs: seq<Request>): (r: seq<seq<byte>>)
    ensures |r| == |rs| && forall i | 0 <= i < |rs| :: r[i] == Encode(rs[i])
  {
    seq(|rs|, i requires 0 <= i < |rs| => Encode(rs[i]))
  }

  /** Requests written one after another are told apart, each with its own id and opcode. */
  lemma RequestsAreFramed(rs: seq<Request>)
    requires forall r <- rs :: IsInt32(Length(r.op)) && IsInt32(r.requestId)
    ensures Split(Concat(Encodings(rs))) == Feed(Frames(Encodings(rs)), [])
    ensures forall i | 0 <= i < |rs| ::
      ParseHeader(Encode(rs[i])) == Header(Length(rs[i].op), rs[i].requestId, 0, OpCode(rs[i].op))
  {
    forall i | 0 <= i < |rs|
      ensures ParseHeader(Encode(rs[i])) == Header(Length(rs[i].op), rs[i].requestId, 0, OpCode(rs[i].op))
    {
      var r := rs[i];
      assert r in rs;
      HeaderFront(Length(r.op), r.requestId, 0, OpCode(r.op), Body(r.op));
    }
    PrefixedSplit(Encodings(rs));
  }
}
