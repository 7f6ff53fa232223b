/** The request encoders (Query, GetMore, KillCursor, Msg) and the reference decoder they must agree with. */
module Codec {
  import opened Bytes

  type Document = d: seq<byte> | |d| >= 5 && Int32At(d, 0) == |d| witness [5, 0, 0, 0, 0]

  datatype QueryFlags = QueryFlags(
    tailable: bool, slaveOk: bool, oplogReplay: bool, noCursorTimeout: bool,
    awaitData: bool, exhaust: bool, partial: bool)

  /** What a request asks for; ns is the UTF-8 form of the namespace. */
  datatype Operation =
    | Query(flags: QueryFlags, ns: seq<byte>, numberToSkip: int, numberToReturn: int,
            query: Document, projection: Option<Document>)
    | GetMore(ns: seq<byte>, numberToReturn: int, cursorId: int)
    | KillCursor(cursorIds: seq<int>)
    | Msg(checksumPresent: bool, moreToCome: bool, exhaustAllowed: bool, command: Document)

  datatype Request = Request(requestId: int, op: Operation)

  // ---------- the bytes of each request ----------

  function OpCode(op: Operation): int {
    if op.Query? then OP_QUERY else if op.GetMore? then OP_GETMORE
    else if op.KillCursor? then OP_KILL_CURSORS else OP_MSG
  }

  function HeaderBytes(length: int, requestId: int, responseTo: int, opCode: int): (b: seq<byte>)
    ensures |b| == HEADER_SIZE
  {
    Int32Bytes(length) + (Int32Bytes(requestId) + (Int32Bytes(responseTo) + Int32Bytes(opCode)))
  }

  /** Long.getLowBits and getHighBits of a 64-bit cursor id. */
  function LowBits(id: int): int { ToInt32(id) }

  function HighBits(id: int): int { id / TWO_TO_THE_32 }

  function Int64Bytes(id: int): (b: seq<byte>)
    ensures |b| == 8
  {
    Int32Bytes(LowBits(id)) + Int32Bytes(HighBits(id))
  }

  function CursorBytes(ids: seq<int>): (b: seq<byte>)
    ensures |b| == 8 * |ids|
  {
    if ids == [] then [] else CursorBytes(ids[..|ids| - 1]) + Int64Bytes(ids[|ids| - 1])
  }

  function Bit(raised: bool, value: nat): nat { if raised then value else 0 }

  function QueryFlagBits(f: QueryFlags): nat {
    Bit(f.tailable, 2) + Bit(f.slaveOk, 4) + Bit(f.oplogReplay, 8) + Bit(f.noCursorTimeout, 16)
    + Bit(f.awaitData, 32) + Bit(f.exhaust, 64) + Bit(f.partial, 128)
  }

  function MsgFlagBits(op: Operation): nat
    requires op.Msg?
  {
    Bit(op.checksumPresent, 1) + Bit(op.moreToCome, 2) + Bit(op.exhaustAllowed, 0x1_0000)
  }

  function ProjectionBytes(p: Option<Document>): seq<byte> {
    if p.Some? then p.value else []
  }

  function Body(op: Operation): seq<byte> {
    match op
    case Query(flags, ns, skip, toReturn, query, projection) =>
      Int32Bytes(QueryFlagBits(flags))
      + (ns + ([0] + (Int32Bytes(skip) + (Int32Bytes(toReturn) + (query + ProjectionBytes(projection))))))
    case GetMore(ns, toReturn, cursorId) =>
      Int32Bytes(0) + (ns + ([0] + (Int32Bytes(toReturn) + Int64Bytes(cursorId))))
    case KillCursor(ids) =>
      Int32Bytes(0) + (Int32Bytes(|ids|) + CursorBytes(ids))
    case Msg(_, _, _, command) =>
      Int32Bytes(MsgFlagBits(op)) + ([0] + command)
  }

  function Length(op: Operation): nat { HEADER_SIZE + |Body(op)| }

  function Encode(r: Request): (b: seq<byte>)
    ensures |b| == Length(r.op)
  {
    HeaderBytes(Length(r.op), r.requestId, 0, OpCode(r.op)) + Body(r.op)
  }

  // ---------- the encoders ----------

  /** Stores x little-endian at index, as each encoder does by hand. */
  method Write32(buffer: array<byte>, index: nat, x: int) returns (next: nat)
    requires index + 4 <= buffer.Length
    modifies buffer
    ensures next == index + 4
    ensures buffer[..next] == old(buffer[..index]) + Int32Bytes(x)
    ensures buffer[next..] == old(buffer[next..])
  {
    var v := ToInt32(x);
    buffer[index + 3] := (v / 0x100_0000) % 256;
    buffer[index + 2] := (v / 0x1_0000) % 256;
    buffer[index + 1] := (v / 0x100) % 256;
    buffer[index] := v % 256;
    next := index + 4;
    assert buffer[index..next] == Int32Bytes(x);
    assert buffer[..next] == buffer[..index] + buffer[index..next];
  }

  /** Writes the namespace and its terminating zero. */
  method WriteCString(buffer: array<byte>, index: nat, ns: seq<byte>) returns (next: nat)
    requires index + |ns| + 1 <= buffer.Length
    modifies buffer
    ensures next == index + |ns| + 1
    ensures buffer[..next] == old(buffer[..index]) + (ns + [0])
    ensures buffer[next..] == old(buffer[next..])
  {
    forall i | 0 <= i < |ns| {
      buffer[index + i] := ns[i];
    }
    next := index + |ns| + 1;
    buffer[next - 1] := 0;
    assert buffer[index..next] == ns + [0];
    assert buffer[..next] == buffer[..index] + buffer[index..next];
  }

  method WriteHeader(buffer: array<byte>, requestId: int, opCode: int, length: int) returns (index: nat)
    requires HEADER_SIZE <= buffer.Length
    modifies buffer
    ensures index == HEADER_SIZE && buffer[..index] == HeaderBytes(length, requestId, 0, opCode)
  {
    index := Write32(buffer, 0, length);
    index := Write32(buffer, index, requestId);
    index := Write32(buffer, index, 0);
    index := Write32(buffer, index, opCode);
  }

  lemma Regroup(a: seq<byte>, b: seq<byte>, c: seq<byte>, d: seq<byte>)
    ensures a + b + c + d == a + (b + (c + d))
  {
  }

  method GetMoreToBin(r: Request) returns (buffer: array<byte>)
    requires r.op.GetMore?
    ensures fresh(buffer) && buffer[..] == Encode(r)
  {
    hide Int32Bytes, HeaderBytes;
    var length := 4 + |r.op.ns| + 1 + 4 + 8 + 4 * 4;
    buffer := new byte[length];
    var index := WriteHeader(buffer, r.requestId, OP_GETMORE, length);
    ghost var header := buffer[..index];
    index := Write32(buffer, index, 0);
    index := WriteCString(buffer, index, r.op.ns);
    index := Write32(buffer, index, r.op.numberToReturn);
    index := Write32(buffer, index, LowBits(r.op.cursorId));
    index := Write32(buffer, index, HighBits(r.op.cursorId));
    assert buffer[..index] == buffer[..];
    GetMoreLayout(header, r.op);
  }

  lemma GetMoreLayout(header: seq<byte>, op: Operation)
    requires op.GetMore?
    ensures header + Int32Bytes(0) + (op.ns + [0]) + Int32Bytes(op.numberToReturn) + Int32Bytes(LowBits(op.cursorId))
      + Int32Bytes(HighBits(op.cursorId)) == header + Body(op)
  {
    hide Int32Bytes;
    var id := Int64Bytes(op.cursorId);
    Regroup(header + Int32Bytes(0) + (op.ns + [0]) + Int32Bytes(op.numberToReturn),
            Int32Bytes(LowBits(op.cursorId)), Int32Bytes(HighBits(op.cursorId)), []);
    Regroup(header, Int32Bytes(0), op.ns + [0], Int32Bytes(op.numberToReturn) + id);
    Regroup([], op.ns, [0], Int32Bytes(op.numberToReturn) + id);
  }

  method KillCursorToBin(r: Request) returns (buffer: array<byte>)
    requires r.op.KillCursor?
    ensures fresh(buffer) && buffer[..] == Encode(r)
  {
    var ids := r.op.cursorIds;
    var length := 4 + 4 + 4 * 4 + |ids| * 8;
    buffer := new byte[length];
    var index := WriteHeader(buffer, r.requestId, OP_KILL_CURSORS, length);
    ghost var header := buffer[..index];
    index := Write32(buffer, index, 0);
    index := Write32(buffer, index, |ids|);
    ghost var head := buffer[..index];
    WriteCursors(buffer, index, ids);
    Regroup(header, Int32Bytes(0), Int32Bytes(|ids|), CursorBytes(ids));
  }

  method WriteCursors(buffer: array<byte>, start: nat, ids: seq<int>)
    requires start + 8 * |ids| == buffer.Length
    modifies buffer
    ensures buffer[..] == old(buffer[..start]) + CursorBytes(ids)
  {
    var index := start;
    for i := 0 to |ids|
      invariant index == start + 8 * i
      invariant buffer[..index] == old(buffer[..start]) + CursorBytes(ids[..i])
    {
      ghost var before := old(buffer[..start]) + CursorBytes(ids[..i]);
      index := Write32(buffer, index, LowBits(ids[i]));
      index := Write32(buffer, index, HighBits(ids[i]));
      assert ids[..i + 1][..i] == ids[..i];
      Regroup(old(buffer[..start]), CursorBytes(ids[..i]), Int32Bytes(LowBits(ids[i])), Int32Bytes(HighBits(ids[i])));
      Regroup(old(buffer[..start]), CursorBytes(ids[..i]), Int64Bytes(ids[i]), []);
    }
    assert ids[..|ids|] == ids;
    assert buffer[..index] == buffer[..];
  }

  method QueryToBin(r: Request) returns (buffers: seq<seq<byte>>)
    requires r.op.Query?
    ensures Concat(buffers) == Encode(r)
  {
    var header := new byte[4 * 4 + 4 + |r.op.ns| + 1 + 4 + 4];
    var documents := [r.op.query];
    if r.op.projection.Some? {
      documents := documents + [r.op.projection.value];
    }
    var totalLength := header.Length + |r.op.query|
      + if r.op.projection.Some? then |r.op.projection.value| else 0;
    var index := WriteHeader(header, r.requestId, OP_QUERY, totalLength);
    ghost var h := header[..index];
    index := Write32(header, index, QueryFlagBits(r.op.flags));
    index := WriteCString(header, index, r.op.ns);
    index := Write32(header, index, r.op.numberToSkip);
    index := Write32(header, index, r.op.numberToReturn);
    assert header[..index] == header[..];
    buffers := [header[..]] + documents;
    ghost var flags, ns := Int32Bytes(QueryFlagBits(r.op.flags)), r.op.ns;
    ghost var skip, ret := Int32Bytes(r.op.numberToSkip), Int32Bytes(r.op.numberToReturn);
    ghost var docs := r.op.query + ProjectionBytes(r.op.projection);
    assert header[..] == h + flags + (ns + [0]) + skip + ret;
    DocumentsConcat(r.op.query, r.op.projection, header[..], documents);
    QueryLayout(h, flags, ns, skip, ret, docs);
  }

  lemma QueryLayout(h: seq<byte>, flags: seq<byte>, ns: seq<byte>, skip: seq<byte>, ret: seq<byte>, docs: seq<byte>)
    ensures h + flags + (ns + [0]) + skip + ret + docs == h + (flags + (ns + ([0] + (skip + (ret + docs)))))
  {
    Regroup(h + flags + (ns + [0]), skip, ret, docs);
    Regroup(h, flags, ns + [0], skip + (ret + docs));
    Regroup([], ns, [0], skip + (ret + docs));
  }

  lemma DocumentsConcat(query: Document, projection: Option<Document>, header: seq<byte>, documents: seq<seq<byte>>)
    requires documents == if projection.Some? then [query, projection.value] else [query]
    ensures Concat([header] + documents) == header + (query + ProjectionBytes(projection))
  {
    assert ([header] + documents)[1..] == documents;
    assert documents[1..] == if projection.Some? then [projection.value] else [];
    assert Concat(documents[1..]) == ProjectionBytes(projection);
  }

  /** None when a number does not fit its field: writeInt32LE refuses it. */
  method MsgToBin(r: Request) returns (buffers: Option<seq<seq<byte>>>)
    requires r.op.Msg?
    ensures buffers.Some? <==> IsInt32(r.requestId) && IsInt32(Length(r.op))
    ensures buffers.Some? ==> Concat(buffers.value) == Encode(r)
  {
    var header := new byte[4 * 4 + 4];
    var totalLength := header.Length + 1 + |r.op.command|;
    if !IsInt32(totalLength) || !IsInt32(r.requestId) {
      return None;
    }
    WriteMsgHeader(header, r, totalLength);
    buffers := Some([header[..], [0], r.op.command]);
    ThreeConcat(header[..], [0], r.op.command);
    MsgLayout(r);
  }

  method WriteMsgHeader(header: array<byte>, r: Request, totalLength: int)
    requires r.op.Msg? && header.Length == HEADER_SIZE + 4
    modifies header
    ensures header[..] == HeaderBytes(totalLength, r.requestId, 0, OP_MSG) + Int32Bytes(MsgFlagBits(r.op))
  {
    var index := WriteHeader(header, r.requestId, OP_MSG, totalLength);
    index := Write32(header, index, MsgFlagBits(r.op));
    assert header[..index] == header[..];
  }

  lemma MsgLayout(r: Request)
    requires r.op.Msg?
    ensures Encode(r) == HeaderBytes(HEADER_SIZE + 5 + |r.op.command|, r.requestId, 0, OP_MSG)
      + Int32Bytes(MsgFlagBits(r.op)) + ([0] + r.op.command)
  {
    Regroup([], HeaderBytes(Length(r.op), r.requestId, 0, OP_MSG), Int32Bytes(MsgFlagBits(r.op)), [0] + r.op.command);
  }

  lemma ThreeConcat(a: seq<byte>, b: seq<byte>, c: seq<byte>)
    ensures Concat([a, b, c]) == a + (b + c)
  {
    assert [a, b, c][1..] == [b, c] && [b, c][1..] == [c] && [c][1..] == [];
    assert Concat([c]) == c + [];
    assert Concat([b, c]) == b + c;
  }

  // ---------- the reference decoder, field by field from the front ----------

  function TakeInt32(s: seq<byte>): Option<(int, seq<byte>)> {
    if |s| < 4 then None else Some((Int32At(s, 0), s[4..]))
  }

  function TakeInt64(s: seq<byte>): Option<(int, seq<byte>)> {
    var (low, s1) :- TakeInt32(s);
    var (high, s2) :- TakeInt32(s1);
    Some((low % TWO_TO_THE_32 + high * TWO_TO_THE_32, s2))
  }

  /** Up to, and without, the first zero byte. */
  function TakeCString(s: seq<byte>): (r: Option<(seq<byte>, seq<byte>)>)
    ensures r.Some? ==> 0 !in r.value.0 && s == r.value.0 + ([0] + r.value.1)
  {
    if s == [] then None
    else if s[0] == 0 then Some(([], s[1..]))
    else
      var (name, rest) :- TakeCString(s[1..]);
      Some(([s[0]] + name, rest))
  }

  function TakeDocument(s: seq<byte>): Option<(Document, seq<byte>)> {
    if |s| < 4 || Int32At(s, 0) < 5 || Int32At(s, 0) > |s| then None else
    var n := Int32At(s, 0);
    Int32AtPrefix(s[..n], s, 0);
    Some((s[..n], s[n..]))
  }

  function TakeCursors(s: seq<byte>, n: nat): Option<(seq<int>, seq<byte>)> {
    if n == 0 then Some(([], s)) else
    var (ids, s1) :- TakeCursors(s, n - 1);
    var (id, s2) :- TakeInt64(s1);
    Some((ids + [id], s2))
  }

  predicate BitAt(flags: int, value: int)
    requires value > 0
  {
    (flags / value) % 2 == 1
  }

  /** The request a server reads from one message, following the wire protocol's field tables. */
  function Decode(b: seq<byte>): Option<Request> {
    if |b| < HEADER_SIZE then None else
    var header := ParseHeader(b);
    if header.length != |b| || header.responseTo != 0 then None else
    var op :- DecodeBody(header.opCode, b[HEADER_SIZE..]);
    Some(Request(header.requestId, op))
  }

  function DecodeBody(opCode: int, body: seq<byte>): Option<Operation> {
    if opCode == OP_QUERY then DecodeQuery(body)
    else if opCode == OP_GETMORE then DecodeGetMore(body)
    else if opCode == OP_KILL_CURSORS then DecodeKillCursor(body)
    else if opCode == OP_MSG then DecodeMsg(body)
    else None
  }

  function FlagsOf(bits: int): QueryFlags {
    QueryFlags(BitAt(bits, 2), BitAt(bits, 4), BitAt(bits, 8), BitAt(bits, 16),
               BitAt(bits, 32), BitAt(bits, 64), BitAt(bits, 128))
  }

  function DecodeQuery(body: seq<byte>): Option<Operation> {
    var (flags, s1) :- TakeInt32(body);
    var (ns, s2) :- TakeCString(s1);
    var (skip, s3) :- TakeInt32(s2);
    var (toReturn, s4) :- TakeInt32(s3);
    var (query, s5) :- TakeDocument(s4);
    if s5 == [] then Some(Query(FlagsOf(flags), ns, skip, toReturn, query, None)) else
    var (projection, s6) :- TakeDocument(s5);
    if s6 == [] then Some(Query(FlagsOf(flags), ns, skip, toReturn, query, Some(projection))) else None
  }

  function DecodeGetMore(body: seq<byte>): Option<Operation> {
    var (zero, s1) :- TakeInt32(body);
    var (ns, s2) :- TakeCString(s1);
    var (toReturn, s3) :- TakeInt32(s2);
    var (cursorId, s4) :- TakeInt64(s3);
    if zero == 0 && s4 == [] then Some(GetMore(ns, toReturn, cursorId)) else None
  }

  function DecodeKillCursor(body: seq<byte>): Option<Operation> {
    var (zero, s1) :- TakeInt32(body);
    var (n, s2) :- TakeInt32(s1);
    if zero != 0 || n < 0 then None else
    var (ids, s3) :- TakeCursors(s2, n);
    if s3 == [] then Some(KillCursor(ids)) else None
  }

  function DecodeMsg(body: seq<byte>): Option<Operation> {
    var (flags, s1) :- TakeInt32(body);
    if |s1| == 0 || s1[0] != 0 then None else
    var (command, s2) :- TakeDocument(s1[1..]);
    if s2 == [] then Some(Msg(BitAt(flags, 1), BitAt(flags, 2), BitAt(flags, 0x1_0000), command))
    else None
  }

  // ---------- round trip ----------

  predicate IsInt64(x: int) {
    -0x8000_0000_0000_0000 <= x < 0x8000_0000_0000_0000
  }

  /** Every number fits its field and the namespace holds no zero byte. */
  predicate Fits(op: Operation) {
    match op
    case Query(_, ns, skip, toReturn, _, _) => 0 !in ns && IsInt32(skip) && IsInt32(toReturn)
    case GetMore(ns, toReturn, cursorId) => 0 !in ns && IsInt32(toReturn) && IsInt64(cursorId)
    case KillCursor(ids) => forall id <- ids :: IsInt64(id)
    case Msg(_, _, _, _) => true
  }

  lemma Int32Front(x: int, t: seq<byte>)
    ensures TakeInt32(Int32Bytes(x) + t) == Some((ToInt32(x), t))
  {
    var s := Int32Bytes(x) + t;
    assert s[0..4] == Int32Bytes(x) && s[4..] == t;
    Int32RoundTrip(x, s, 0);
  }

  /** The same in the middle of a message. */
  lemma Int32Next(b: seq<byte>, i: nat, x: int, t: seq<byte>)
    requires i <= |b| && b[i..] == Int32Bytes(x) + t
    ensures i + 4 <= |b| && Int32At(b, i) == ToInt32(x) && b[i + 4..] == t
  {
    Int32Front(x, t);
    assert |b[i..]| == 4 + |t|;
    Int32AtDrop(b, i);
    assert b[i + 4..] == b[i..][4..];
  }

  function ToInt64(x: int): int {
    ToInt32(x) % TWO_TO_THE_32 + ToInt32(HighBits(x)) * TWO_TO_THE_32
  }

  lemma Int64Front(x: int, t: seq<byte>)
    ensures TakeInt64(Int64Bytes(x) + t) == Some((ToInt64(x), t))
    ensures ToInt64(x) == x <==> IsInt64(x)
  {
    var s := Int64Bytes(x) + t;
    assert s == Int32Bytes(LowBits(x)) + (Int32Bytes(HighBits(x)) + t);
    Int32Front(LowBits(x), Int32Bytes(HighBits(x)) + t);
    Int32Front(HighBits(x), t);
    assert x == x % TWO_TO_THE_32 + HighBits(x) * TWO_TO_THE_32;
    assert ToInt32(x) % TWO_TO_THE_32 == x % TWO_TO_THE_32;
  }

  lemma {:induction false} CStringFront(ns: seq<byte>, t: seq<byte>)
    requires 0 !in ns
    ensures TakeCString(ns + ([0] + t)) == Some((ns, t))
  {
    var s := ns + ([0] + t);
    if ns == [] {
      assert s == [0] + t;
    } else {
      assert s[1..] == ns[1..] + ([0] + t);
      CStringFront(ns[1..], t);
      assert [ns[0]] + ns[1..] == ns;
    }
  }

  lemma DocumentFront(d: Document, t: seq<byte>)
    ensures TakeDocument(d + t) == Some((d, t))
  {
    Int32AtPrefix(d, d + t, 0);
    assert (d + t)[..|d|] == d && (d + t)[|d|..] == t;
  }

  function ToInt64s(ids: seq<int>): (r: seq<int>)
    ensures |r| == |ids| && forall i | 0 <= i < |ids| :: r[i] == ToInt64(ids[i])
  {
    seq(|ids|, i requires 0 <= i < |ids| => ToInt64(ids[i]))
  }

  lemma {:induction false} CursorsFront(ids: seq<int>, t: seq<byte>)
    ensures TakeCursors(CursorBytes(ids) + t, |ids|) == Some((ToInt64s(ids), t))
    decreases |ids|
  {
    if ids == [] {
      assert CursorBytes(ids) + t == t;
    } else {
      var n := |ids| - 1;
      var tail := Int64Bytes(ids[n]) + t;
      assert CursorBytes(ids) + t == CursorBytes(ids[..n]) + tail;
      CursorsFront(ids[..n], tail);
      Int64Front(ids[n], t);
      assert ToInt64s(ids[..n]) + [ToInt64(ids[n])] == ToInt64s(ids);
    }
  }

  lemma HeaderFront(length: int, requestId: int, responseTo: int, opCode: int, body: seq<byte>)
    ensures var b := HeaderBytes(length, requestId, responseTo, opCode) + body;
      && ParseHeader(b) == Header(ToInt32(length), ToInt32(requestId), ToInt32(responseTo), ToInt32(opCode))
      && b[HEADER_SIZE..] == body
  {
    var b := HeaderBytes(length, requestId, responseTo, opCode) + body;
    assert b[0..4] == Int32Bytes(length) && b[4..8] == Int32Bytes(requestId);
    assert b[8..12] == Int32Bytes(responseTo) && b[12..16] == Int32Bytes(opCode);
    Int32RoundTrip(length, b, 0);
    Int32RoundTrip(requestId, b, 4);
    Int32RoundTrip(responseTo, b, 8);
    Int32RoundTrip(opCode, b, 12);
  }

  lemma FlagsRoundTrip(f: QueryFlags)
    ensures ToInt32(QueryFlagBits(f)) == QueryFlagBits(f) && FlagsOf(QueryFlagBits(f)) == f
  {
    // the quotients by 128, 64, ... 2
    var q7 := Prepend(f.partial, 0);
    var q6 := Prepend(f.exhaust, q7);
    var q5 := Prepend(f.awaitData, q6);
    var q4 := Prepend(f.noCursorTimeout, q5);
    var q3 := Prepend(f.oplogReplay, q4);
    var q2 := Prepend(f.slaveOk, q3);
    var q1 := Prepend(f.tailable, q2);
    var n := QueryFlagBits(f);
    FlagSum(Bit(f.tailable, 1), Bit(f.slaveOk, 1), Bit(f.oplogReplay, 1), Bit(f.noCursorTimeout, 1),
            Bit(f.awaitData, 1), Bit(f.exhaust, 1), Bit(f.partial, 1), f);
    BitsFrom(n, q1, q2, q3, q4, q5, q6, q7);
    FlagsFrom(f, n, q1, q2, q3, q4, q5, q6, q7);
  }

  lemma FlagSum(t: nat, s: nat, o: nat, n: nat, a: nat, e: nat, p: nat, f: QueryFlags)
    requires t == Bit(f.tailable, 1) && s == Bit(f.slaveOk, 1) && o == Bit(f.oplogReplay, 1)
    requires n == Bit(f.noCursorTimeout, 1) && a == Bit(f.awaitData, 1) && e == Bit(f.exhaust, 1)
    requires p == Bit(f.partial, 1)
    ensures QueryFlagBits(f) == 2 * t + 4 * s + 8 * o + 16 * n + 32 * a + 64 * e + 128 * p
    ensures QueryFlagBits(f) < 256
  {
    assert Bit(f.tailable, 2) == 2 * t && Bit(f.slaveOk, 4) == 4 * s && Bit(f.oplogReplay, 8) == 8 * o;
    assert Bit(f.noCursorTimeout, 16) == 16 * n && Bit(f.awaitData, 32) == 32 * a;
    assert Bit(f.exhaust, 64) == 64 * e && Bit(f.partial, 128) == 128 * p;
  }

  lemma FlagsFrom(f: QueryFlags, n: nat, q1: nat, q2: nat, q3: nat, q4: nat, q5: nat, q6: nat, q7: nat)
    requires n / 2 == q1 && n / 4 == q2 && n / 8 == q3 && n / 16 == q4
    requires n / 32 == q5 && n / 64 == q6 && n / 128 == q7
    requires (q1 % 2 == 1 <==> f.tailable) && (q2 % 2 == 1 <==> f.slaveOk) && (q3 % 2 == 1 <==> f.oplogReplay)
    requires (q4 % 2 == 1 <==> f.noCursorTimeout) && (q5 % 2 == 1 <==> f.awaitData)
    requires (q6 % 2 == 1 <==> f.exhaust) && (q7 % 2 == 1 <==> f.partial)
    ensures FlagsOf(n) == f
  {
  }

  /** One more bit below the others. */
  function Prepend(raised: bool, higher: nat): (q: nat)
    ensures q == Bit(raised, 1) + 2 * higher
    ensures q / 2 == higher && (q % 2 == 1 <==> raised)
  {
    Bit(raised, 1) + 2 * higher
  }

  lemma BitsFrom(n: nat, q1: nat, q2: nat, q3: nat, q4: nat, q5: nat, q6: nat, q7: nat)
    requires n == 2 * q1 && q1 / 2 == q2 && q2 / 2 == q3 && q3 / 2 == q4
    requires q4 / 2 == q5 && q5 / 2 == q6 && q6 / 2 == q7
    ensures n / 2 == q1 && n / 4 == q2 && n / 8 == q3 && n / 16 == q4
    ensures n / 32 == q5 && n / 64 == q6 && n / 128 == q7
  {
  }

  lemma QueryRoundTrip(op: Operation)
    requires op.Query?
    ensures DecodeQuery(Body(op)) == Some(op) <==> Fits(op)
  {
    var s5 := ProjectionBytes(op.projection);
    var s4 := op.query + s5;
    var s3 := Int32Bytes(op.numberToReturn) + s4;
    var s2 := Int32Bytes(op.numberToSkip) + s3;
    Int32Front(QueryFlagBits(op.flags), op.ns + ([0] + s2));
    FlagsRoundTrip(op.flags);
    if 0 !in op.ns {
      CStringFront(op.ns, s2);
      Int32Front(op.numberToSkip, s3);
      Int32Front(op.numberToReturn, s4);
      DocumentFront(op.query, s5);
      if op.projection.Some? {
        assert s5 + [] == s5;
        DocumentFront(op.projection.value, []);
      }
    }
  }

  lemma GetMoreRoundTrip(op: Operation)
    requires op.GetMore?
    ensures DecodeGetMore(Body(op)) == Some(op) <==> Fits(op)
  {
    var s2 := Int32Bytes(op.numberToReturn) + Int64Bytes(op.cursorId);
    Int32Front(0, op.ns + ([0] + s2));
    if 0 !in op.ns {
      CStringFront(op.ns, s2);
      Int32Front(op.numberToReturn, Int64Bytes(op.cursorId));
      assert Int64Bytes(op.cursorId) + [] == Int64Bytes(op.cursorId);
      Int64Front(op.cursorId, []);
    }
  }

  lemma KillCursorRoundTrip(op: Operation)
    requires op.KillCursor? && IsInt32(|op.cursorIds|)
    ensures DecodeKillCursor(Body(op)) == Some(op) <==> Fits(op)
  {
    var ids := op.cursorIds;
    Int32Front(0, Int32Bytes(|ids|) + CursorBytes(ids));
    Int32Front(|ids|, CursorBytes(ids));
    assert CursorBytes(ids) + [] == CursorBytes(ids);
    CursorsFront(ids, []);
    forall i | 0 <= i < |ids| ensures ToInt64s(ids)[i] == ids[i] <==> IsInt64(ids[i]) {
      Int64Front(ids[i], []);
    }
    if ToInt64s(ids) == ids {
      assert forall i | 0 <= i < |ids| :: ToInt64s(ids)[i] == ids[i];
    }
  }

  lemma MsgRoundTrip(op: Operation)
    requires op.Msg?
    ensures DecodeMsg(Body(op)) == Some(op)
  {
    Int32Front(MsgFlagBits(op), [0] + op.command);
    assert ([0] + op.command)[1..] == op.command && op.command + [] == op.command;
    DocumentFront(op.command, []);
  }

  /** A server reads back the request that was sent exactly when every part of it fits its field. */
  lemma RoundTrip(r: Request)
    ensures Decode(Encode(r)) == Some(r) <==> IsInt32(Length(r.op)) && IsInt32(r.requestId) && Fits(r.op)
  {
    HeaderFront(Length(r.op), r.requestId, 0, OpCode(r.op), Body(r.op));
    match r.op
    case Query(_, _, _, _, _, _) => QueryRoundTrip(r.op);
    case GetMore(_, _, _) => GetMoreRoundTrip(r.op);
    case KillCursor(_) =>
      if IsInt32(Length(r.op)) {
        KillCursorRoundTrip(r.op);
      }
    case Msg(_, _, _, _) => MsgRoundTrip(r.op);
  }
}
