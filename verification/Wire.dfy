/** The binary wire format of internal/protocol/binary.go: the header byte, big-endian
    integers, and the serialisation of every message structure. */
module Wire {
  import opened Bytes
  import opened Codec
  import opened Terminals

  const FIX_HEADER_LEN: nat := 5
  const ADD_HEADER_LEN: nat := 4
  const HEADER_LEN: nat := FIX_HEADER_LEN + ADD_HEADER_LEN

  type uint16 = n: int | 0 <= n < 0x1_0000
  type uint32 = n: int | 0 <= n < 0x1_0000_0000

  // ---------- The header byte ----------

  /** The low six bits: `line & 0x3F`. */
  function MsgTypeOf(line: byte): nat { line % 64 }

  /** The high two bits: `line & 0xC0 >> 6`, which Go reads as `(line & 0xC0) >> 6`. */
  function EncodeOf(line: byte): nat { line / 64 }

  /** The fixed header, whose first byte the two setters rewrite in place. */
  class Header {
    var line: byte
    var tid: uint32

    constructor (line: byte, tid: uint32)
      ensures this.line == line && this.tid == tid
    {
      this.line := line;
      this.tid := tid;
    }

    /** A type that needs more than six bits leaks into the encoding. */
    method SetMsgType(msgType: nat)
      modifies this`line
      ensures MsgTypeOf(line) == msgType % 64
      ensures EncodeOf(line) == OrNat(EncodeOf(old(line)), msgType % 256 / 64)
      ensures msgType < 64 ==> EncodeOf(line) == EncodeOf(old(line))
    {
      TypeSet(line, msgType);
      hide Or, OrNat;
      line := line / 64;
      line := line * 64;
      line := Or(line, msgType % 256);
    }

    /** Only the two low bits of the encoding are kept. */
    method SetEncode(encode: nat)
      modifies this`line
      ensures EncodeOf(line) == encode % 4
      ensures MsgTypeOf(line) == MsgTypeOf(old(line))
    {
      EncodeSet(line, encode);
      line := line * 4 % 256;
      line := line / 4;
      line := Or(line, encode * 64 % 256);
    }
  }

  lemma TypeSet(line: byte, msgType: nat)
    ensures var high := OrNat(line / 64, msgType % 256 / 64);
            && Or(line / 64 * 64, msgType % 256) == 64 * high + msgType % 64
            && (msgType < 64 ==> high == line / 64)
  {
    hide OrNat;
    assert msgType % 256 % 64 == msgType % 64;
    OrShiftedBySix(line / 64, msgType % 256);
    OrNatZero(line / 64);
  }

  lemma EncodeSet(line: byte, encode: nat)
    ensures var low := line * 4 % 256 / 4;
            Or(low, encode * 64 % 256) == 64 * (encode % 4) + line % 64
  {
    LowBits(line);
    HighBits(encode);
    EncodeBits(encode % 4, line % 64);
    hide OrNat;
  }

  lemma LowBits(line: byte)
    ensures line * 4 % 256 / 4 == line % 64
  {
  }

  lemma HighBits(encode: nat)
    ensures encode * 64 % 256 == 64 * (encode % 4)
  {
  }

  lemma EncodeBits(high: nat, low: nat)
    requires low < 64
    ensures OrNat(low, 64 * high) == 64 * high + low
  {
    hide OrNat;
    OrNatComm(low, 64 * high);
    OrShiftedBySix(high, low);
    OrNatZero(high);
  }

  // ---------- Big-endian integers ----------

  function PackU16(n: uint16): (s: seq<byte>)
    ensures |s| == 2
  {
    [n / 256, n % 256]
  }

  function ReadU16(s: seq<byte>): uint16
    requires |s| == 2
  {
    (s[0] as int) * 256 + (s[1] as int)
  }

  function PackU32(n: uint32): (s: seq<byte>)
    ensures |s| == 4
  {
    PackU16(n / 0x1_0000) + PackU16(n % 0x1_0000)
  }

  function ReadU32(s: seq<byte>): uint32
    requires |s| == 4
  {
    (ReadU16(s[..2]) as int) * 0x1_0000 + (ReadU16(s[2..]) as int)
  }

  lemma ReadPackU16(n: uint16)
    ensures ReadU16(PackU16(n)) == n
  {
  }

  lemma PackReadU16(s: seq<byte>)
    requires |s| == 2
    ensures PackU16(ReadU16(s)) == s
  {
  }

  lemma ReadPackU32(n: uint32)
    ensures ReadU32(PackU32(n)) == n
  {
    ReadPackU16(n / 0x1_0000);
    ReadPackU16(n % 0x1_0000);
    assert PackU32(n)[..2] == PackU16(n / 0x1_0000) && PackU32(n)[2..] == PackU16(n % 0x1_0000);
  }

  lemma PackReadU32(s: seq<byte>)
    requires |s| == 4
    ensures PackU32(ReadU32(s)) == s
  {
    PackReadU16(s[..2]);
    PackReadU16(s[2..]);
    var hi, lo := ReadU16(s[..2]) as int, ReadU16(s[2..]) as int;
    assert ReadU32(s) / 0x1_0000 == hi && ReadU32(s) % 0x1_0000 == lo;
    assert s == s[..2] + s[2..];
  }

  /** The number of four bytes, the most significant first. */
  function BigEndian(a: int, b: int, c: int, d: int): int
  {
    a * 0x100_0000 + b * 0x1_0000 + c * 0x100 + d
  }

  lemma ReadsBigEndian(s: seq<byte>)
    requires |s| == 4
    ensures ReadU32(s) == BigEndian(s[0], s[1], s[2], s[3])
  {
    assert s[..2] == [s[0], s[1]] && s[2..] == [s[2], s[3]];
  }

  // ---------- Messages ----------

  type Name = s: seq<byte> | |s| == 32 witness seq(32, _ => 0)

  datatype Frame =
    | HeaderOnly(line: byte, tid: uint32)
    | Register(line: byte, tid: uint32, len: uint32, version: byte, terminalType: byte, id: Name, token: Name)
    | Push(line: byte, tid: uint32, len: uint32, offline: uint16, flag: byte, msg: seq<byte>)
    | Callback(line: byte, tid: uint32, len: uint32, msg: seq<byte>)
    | ImDown(line: byte, tid: uint32, len: uint32, flag: byte, msg: seq<byte>)
    | ImUp(line: byte, tid: uint32, len: uint32, msg: seq<byte>)
    | Resp(line: byte, tid: uint32, len: uint32, code: byte)
    | Kick(line: byte, tid: uint32, len: uint32, reason: byte)

  function Body(f: Frame): seq<byte>
  {
    match f
    case HeaderOnly(_, _) => []
    case Register(_, _, _, version, terminalType, id, token) => [version, terminalType] + id + token
    case Push(_, _, _, offline, flag, msg) => PackU16(offline) + [flag] + msg
    case Callback(_, _, _, msg) => msg
    case ImDown(_, _, _, flag, msg) => [flag] + msg
    case ImUp(_, _, _, msg) => msg
    case Resp(_, _, _, code) => [code]
    case Kick(_, _, _, reason) => [reason]
  }

  function FixHeader(line: byte, tid: uint32): (s: seq<byte>)
    ensures |s| == FIX_HEADER_LEN
  {
    [line] + PackU32(tid)
  }

  /** What `CodecEncode` needs of a body and its declared length not to panic. */
  predicate Encodable(body: seq<byte>, len: nat, encode: nat)
  {
    && Reach(len, encode) <= |body|
    && (encode == ENCODE_LOOP_XOR ==> len != 0)
  }

  predicate Packable(f: Frame)
  {
    f.HeaderOnly? || Encodable(Body(f), f.len, EncodeOf(f.line))
  }

  /** A body of which only what the codec reaches is encoded. */
  function Payload(body: seq<byte>, len: nat, encode: nat): seq<byte>
    requires Encodable(body, len, encode)
  {
    var n := Reach(len, encode);
    Encoded(body[..n], encode) + body[n..]
  }

  function FullHeader(f: Frame): (s: seq<byte>)
    requires !f.HeaderOnly?
    ensures |s| == HEADER_LEN
  {
    FixHeader(f.line, f.tid) + PackU32(f.len)
  }

  function Packed(f: Frame): seq<byte>
    requires Packable(f)
  {
    if f.HeaderOnly? then FixHeader(f.line, f.tid)
    else FullHeader(f) + Payload(Body(f), f.len, EncodeOf(f.line))
  }

  /** The bytes of a frame's body, by position. */
  predicate LaidOut(f: Frame, b: seq<byte>)
  {
    match f
    case HeaderOnly(_, _) => b == []
    case Register(_, _, _, version, terminalType, id, token) =>
      |b| == 66 && b[0] == version && b[1] == terminalType && b[2..34] == id && b[34..66] == token
    case Push(_, _, _, offline, flag, msg) =>
      |b| == 3 + |msg| && (b[0] as int) * 256 + (b[1] as int) == offline && b[2] == flag && b[3..] == msg
    case Callback(_, _, _, msg) => b == msg
    case ImDown(_, _, _, flag, msg) => |b| == 1 + |msg| && b[0] == flag && b[1..] == msg
    case ImUp(_, _, _, msg) => b == msg
    case Resp(_, _, _, code) => |b| == 1 && b[0] == code
    case Kick(_, _, _, reason) => |b| == 1 && b[0] == reason
  }

  lemma BodyLaidOut(f: Frame)
    ensures LaidOut(f, Body(f))
  {
  }

  /** Whoever reads a packed frame finds the header byte, the id and the length most significant
      byte first, and, decoded as the header says, the fields of the body in their places. */
  lemma PackedReads(f: Frame)
    requires !f.HeaderOnly? && f.len == |Body(f)| && (f.line / 64 == 3 ==> f.len > 0)
    ensures Packable(f) && |Packed(f)| == 9 + f.len
    ensures var s := Packed(f);
      && s[0] == f.line && BigEndian(s[1], s[2], s[3], s[4]) == f.tid && BigEndian(s[5], s[6], s[7], s[8]) == f.len
      && LaidOut(f, Decoded(s[9..], f.line / 64))
  {
    var body, encode := Body(f), EncodeOf(f.line);
    ReachEnough(body, encode);
    DecodeEncode(body, encode);
    EncodedLength(body[..Reach(f.len, encode)], encode);
    BodyLaidOut(f);
    hide Body, LaidOut, Encoded, Decoded, Reach, BigEndian, ReadU32, PackU32;
    var s, p := Packed(f), Payload(body, f.len, encode);
    assert s == [f.line] + PackU32(f.tid) + PackU32(f.len) + p;
    assert s[1..5] == PackU32(f.tid) && s[5..9] == PackU32(f.len) && s[9..] == p;
    ReadPackU32(f.tid);
    ReadPackU32(f.len);
    ReadsBigEndian(s[1..5]);
    ReadsBigEndian(s[5..9]);
  }

  method Allocate(bytes: seq<byte>) returns (buf: array<byte>)
    ensures fresh(buf) && buf[..] == bytes
  {
    buf := new byte[|bytes|](i requires 0 <= i < |bytes| => bytes[i]);
  }

  lemma TailReplaced(head: seq<byte>, body: seq<byte>, done: seq<byte>, after: seq<byte>)
    requires |done| <= |body| && Replaced(head + body, after, |head|, done)
    ensures after == head + (done + body[|done|..])
  {
    assert (head + body)[..|head|] == head;
    assert (head + body)[|head| + |done|..] == body[|done|..];
  }

  /** Encodes in place the first `len` bytes that follow the headers. */
  method EncodeTail(buf: array<byte>, ghost head: seq<byte>, ghost body: seq<byte>, len: nat, encode: nat)
    requires |head| == HEADER_LEN && buf[..] == head + body && Encodable(body, len, encode)
    modifies buf
    ensures buf[..] == head + Payload(body, len, encode)
  {
    ghost var n := Reach(len, encode);
    assert buf[HEADER_LEN..HEADER_LEN + n] == (head + body)[HEADER_LEN..HEADER_LEN + n] == body[..n];
    CodecEncode(buf, HEADER_LEN, len, encode);
    TailReplaced(head, body, Encoded(body[..n], encode), buf[..]);
  }

  /** Lays out both headers and the body, then encodes the body's slice in place. */
  method PackBinary(f: Frame) returns (buf: array<byte>)
    requires Packable(f)
    ensures fresh(buf) && buf[..] == Packed(f)
  {
    if f.HeaderOnly? {
      buf := Allocate(FixHeader(f.line, f.tid));
    } else {
      buf := Allocate(FullHeader(f) + Body(f));
      EncodeTail(buf, FullHeader(f), Body(f), f.len, EncodeOf(f.line));
    }
  }
}
