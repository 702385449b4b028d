/** The server's stream parser of comet/tcp.go. The socket is a finite byte sequence, a
    read returns exactly the bytes it asks for, and running out of bytes is a read error. */
module Framing {
  import opened Bytes
  import opened Codec
  import opened Terminals
  import opened Wire

  const MAX_MSG_LEN: uint32 := 1024 * 1024 * 10
  const REGISTER_LEN: nat := 66

  /** One turn of the read loop: the connection ends, or `size` bytes are consumed and
      perhaps a message is queued for the handlers. */
  datatype Turn = Stop | Skip(size: nat) | Emit(frame: Frame, size: nat)

  predicate IsResponse(msgType: nat)
  {
    msgType == MSGTYPE_PUSHRESP || msgType == MSGTYPE_CBRESP || msgType == MSGTYPE_MSGRESP
  }

  predicate HasBody(msgType: nat)
  {
    IsResponse(msgType) || msgType == MSGTYPE_REGISTER || msgType == MSGTYPE_MESSAGE
  }

  /** The structure built from a decoded body; a body too short for it is an error. */
  function Interpret(line: byte, tid: uint32, len: uint32, body: seq<byte>, size: nat): (t: Turn)
    requires HasBody(MsgTypeOf(line))
    ensures t.Stop? || (t.Emit? && t.size == size)
  {
    if MsgTypeOf(line) == MSGTYPE_MESSAGE then Emit(ImUp(line, tid, len, body), size)
    else if MsgTypeOf(line) == MSGTYPE_REGISTER then
      if |body| < REGISTER_LEN then Stop
      else Emit(Register(line, tid, len, body[0], body[1], body[2..34], body[34..66]), size)
    else if body == [] then Stop
    else Emit(Resp(line, tid, len, body[0]), size)
  }

  function InterpretEncoded(line: byte, tid: uint32, len: uint32, bytes: seq<byte>, size: nat): (t: Turn)
    requires HasBody(MsgTypeOf(line))
    ensures t.Stop? || (t.Emit? && t.size == size)
  {
    if EncodeOf(line) == ENCODE_LOOP_XOR && bytes == [] then Stop  // the decoder panics
    else Interpret(line, tid, len, Decoded(bytes, EncodeOf(line)), size)
  }

  /** The switch on the message type, for a declared body of `n` bytes. */
  function ParseBody(line: byte, tid: uint32, len: uint32, n: nat, s: seq<byte>): (t: Turn)
    ensures t.Skip? || t.Emit? ==> t.size == HEADER_LEN + n <= HEADER_LEN + |s|
  {
    if len > MAX_MSG_LEN || |s| < n then Stop
    else if MsgTypeOf(line) == MSGTYPE_KICKRESP then Skip(HEADER_LEN + n)
    else if HasBody(MsgTypeOf(line)) then InterpretEncoded(line, tid, len, s[..n], HEADER_LEN + n)
    else Stop
  }

  function ParseAfterHeader(line: byte, tid: uint32, s: seq<byte>): (t: Turn)
    ensures t.Skip? || t.Emit? ==> ADD_HEADER_LEN <= |s| && t.size <= FIX_HEADER_LEN + |s|
    ensures t.Skip? || t.Emit? ==> t.size == HEADER_LEN + ReadU32(s[..4])
  {
    if |s| < ADD_HEADER_LEN then Stop
    else
      var len := ReadU32(s[..4]);
      ParseBody(line, tid, len, len, s[4..])
  }

  function ParseTurn(s: seq<byte>): (t: Turn)
    ensures t.Skip? || t.Emit? ==> FIX_HEADER_LEN <= t.size <= |s|
  {
    if |s| < FIX_HEADER_LEN then Stop
    else
      var line, tid := s[0], ReadU32(s[1..5]);
      if MsgTypeOf(line) == MSGTYPE_DEFAULT || MsgTypeOf(line) >= MSGTYPE_MAX then Stop
      else if MsgTypeOf(line) == MSGTYPE_HEARTBEAT then Emit(HeaderOnly(line, tid), FIX_HEADER_LEN)
      else ParseAfterHeader(line, tid, s[5..])
  }

  /** Everything the loop queues before the connection ends. */
  function ParseAll(s: seq<byte>): seq<Frame>
    decreases |s|
  {
    match ParseTurn(s)
    case Stop => []
    case Skip(n) => ParseAll(s[n..])
    case Emit(f, n) => [f] + ParseAll(s[n..])
  }

  // ---------- The loop ----------

  method DecodeBody(bytes: seq<byte>, encode: nat) returns (body: seq<byte>)
    requires encode == ENCODE_LOOP_XOR ==> bytes != []
    ensures body == Decoded(bytes, encode)
  {
    var buffer := Allocate(bytes);
    hide Decoded, Encoded, Replaced, Reach;
    assert bytes[0..|bytes|] == bytes;
    CodecDecode(buffer, 0, |bytes|, encode);
    WholeSlice(bytes, buffer[..], 0, |bytes|, encode);
    WholeReplaced(bytes, buffer[..], Decoded(bytes, encode));
    body := buffer[..];
  }

  /** The three body-carrying branches of the switch. */
  method ReadMessage(line: byte, tid: uint32, len: uint32, bytes: seq<byte>, size: nat) returns (turn: Turn)
    requires HasBody(MsgTypeOf(line))
    ensures turn == InterpretEncoded(line, tid, len, bytes, size)
  {
    if EncodeOf(line) == ENCODE_LOOP_XOR && bytes == [] {
      return Stop;
    }
    var body := DecodeBody(bytes, EncodeOf(line));
    if IsResponse(MsgTypeOf(line)) {
      if body == [] {
        return Stop;
      }
      turn := Emit(Resp(line, tid, len, body[0]), size);
    } else if MsgTypeOf(line) == MSGTYPE_REGISTER {
      if |body| < REGISTER_LEN {
        return Stop;
      }
      turn := Emit(Register(line, tid, len, body[0], body[1], body[2..34], body[34..66]), size);
    } else {
      turn := Emit(ImUp(line, tid, len, body), size);
    }
  }

  method ReadBody(line: byte, tid: uint32, len: uint32, n: nat, stream: seq<byte>, at: nat) returns (turn: Turn)
    requires at <= |stream|
    ensures turn == ParseBody(line, tid, len, n, stream[at..])
  {
    if len > MAX_MSG_LEN || |stream| - at < n {
      return Stop;
    }
    if MsgTypeOf(line) == MSGTYPE_KICKRESP {
      turn := Skip(HEADER_LEN + n);
    } else if HasBody(MsgTypeOf(line)) {
      assert stream[at..at + n] == stream[at..][..n];
      turn := ReadMessage(line, tid, len, stream[at..at + n], HEADER_LEN + n);
    } else {
      turn := Stop;
    }
  }

  /** One iteration, reading at `pos`. */
  method Iterate(stream: seq<byte>, pos: nat) returns (turn: Turn)
    requires pos <= |stream|
    ensures turn == ParseTurn(stream[pos..])
  {
    ghost var s := stream[pos..];
    if |stream| - pos < FIX_HEADER_LEN {
      return Stop;
    }
    var line, tid := stream[pos], ReadU32(stream[pos + 1..pos + 5]);
    assert stream[pos + 1..pos + 5] == s[1..5];
    if MsgTypeOf(line) == MSGTYPE_DEFAULT || MsgTypeOf(line) >= MSGTYPE_MAX {
      return Stop;
    }
    if MsgTypeOf(line) == MSGTYPE_HEARTBEAT {
      return Emit(HeaderOnly(line, tid), FIX_HEADER_LEN);
    }
    if |stream| - pos < HEADER_LEN {
      return Stop;
    }
    var len := ReadU32(stream[pos + 5..pos + 9]);
    assert stream[pos + 5..pos + 9] == s[5..][..4];
    assert stream[pos + 9..] == s[5..][4..];
    turn := ReadBody(line, tid, len, len, stream, pos + 9);
  }

  /** How one turn at `pos` unfolds what the rest of the stream denotes. */
  lemma UnfoldTurn(stream: seq<byte>, pos: nat, turn: Turn)
    requires pos <= |stream| && turn == ParseTurn(stream[pos..])
    ensures turn.Stop? ==> ParseAll(stream[pos..]) == []
    ensures !turn.Stop? ==> 0 < turn.size <= |stream| - pos
    ensures turn.Skip? ==> ParseAll(stream[pos..]) == ParseAll(stream[pos + turn.size..])
    ensures turn.Emit? ==> ParseAll(stream[pos..]) == [turn.frame] + ParseAll(stream[pos + turn.size..])
  {
    if !turn.Stop? {
      assert stream[pos..][turn.size..] == stream[pos + turn.size..];
    }
  }

  method Next(stream: seq<byte>, pos: nat) returns (turn: Turn)
    requires pos <= |stream|
    ensures turn.Stop? ==> ParseAll(stream[pos..]) == []
    ensures !turn.Stop? ==> 0 < turn.size <= |stream| - pos
    ensures turn.Skip? ==> ParseAll(stream[pos..]) == ParseAll(stream[pos + turn.size..])
    ensures turn.Emit? ==> ParseAll(stream[pos..]) == [turn.frame] + ParseAll(stream[pos + turn.size..])
  {
    turn := Iterate(stream, pos);
    UnfoldTurn(stream, pos, turn);
  }

  /** The connection's read loop: what it queues is what the stream denotes. */
  method HandleTcpConn(stream: seq<byte>) returns (cached: seq<Frame>)
    ensures cached == ParseAll(stream)
  {
    hide ParseTurn;
    cached := [];
    var pos := 0;
    ghost var all, rest := ParseAll(stream), ParseAll(stream);
    assert stream[0..] == stream;
    while true
      invariant pos <= |stream|
      invariant rest == ParseAll(stream[pos..])
      invariant cached + rest == all
      decreases |stream| - pos
    {
      var turn := Next(stream, pos);
      match turn {
        case Stop =>
          return;
        case Skip(n) =>
          pos := pos + n;
        case Emit(f, n) =>
          cached := cached + [f];
          pos := pos + n;
          rest := rest[1..];
      }
    }
  }

  // ---------- What the loop accepts ----------

  /** The stream starts with a heartbeat, or with both headers and all of a body of at most 10 MB
      as declared; the type is one that terminals send; the structure of the type fits into the
      body; and loop XOR has a byte to start from. Kick responses are not looked into. */
  predicate Acceptable(s: seq<byte>)
  {
    && |s| >= 5
    && var msgType, encode := s[0] % 64, s[0] / 64;
       msgType == 3 ||
       (&& |s| >= 9
        && var len := BigEndian(s[5], s[6], s[7], s[8]);
           && len <= 10_485_760 && |s| >= 9 + len
           && (msgType == 12 ||
               (&& (encode == 3 ==> len > 0)
                && (msgType == 9 || (msgType == 1 && len >= 66) || (msgType in {6, 8, 10} && len >= 1)))))
  }

  /** The loop ends the connection exactly on bytes that are not acceptable. */
  lemma StopsExactly(s: seq<byte>)
    ensures ParseTurn(s).Stop? <==> !Acceptable(s)
  {
    if |s| >= 9 {
      var body := s[9..];
      assert s[5..][..4] == s[5..9] && s[5..][4..] == body;
      ReadsBigEndian(s[5..9]);
      var len, encode := ReadU32(s[5..9]), EncodeOf(s[0]);
      if len <= |body| {
        EncodedLength(body[..len], encode);
      }
      hide ReadU32, BigEndian, Decoded;
    }
  }

  /** What an acceptable start brings: a heartbeat; nothing, for a kick response; or the structure
      of the type, read from the decoded body. */
  lemma EmitsExactly(s: seq<byte>)
    requires Acceptable(s)
    ensures var line, tid, msgType := s[0], BigEndian(s[1], s[2], s[3], s[4]), s[0] % 64;
      if msgType == 3 then ParseTurn(s) == Emit(HeaderOnly(line, tid), 5)
      else
        var len := BigEndian(s[5], s[6], s[7], s[8]);
        var b := Decoded(s[9..9 + len], line / 64);
        |b| == len &&
        if msgType == 12 then ParseTurn(s) == Skip(9 + len)
        else if msgType == 9 then ParseTurn(s) == Emit(ImUp(line, tid, len, b), 9 + len)
        else if msgType == 1 then
          ParseTurn(s) == Emit(Register(line, tid, len, b[0], b[1], b[2..34], b[34..66]), 9 + len)
        else ParseTurn(s) == Emit(Resp(line, tid, len, b[0]), 9 + len)
  {
    ReadsBigEndian(s[1..5]);
    if s[0] % 64 != 3 {
      var len := BigEndian(s[5], s[6], s[7], s[8]);
      assert s[5..][..4] == s[5..9] && s[5..][4..][..len] == s[9..9 + len];
      ReadsBigEndian(s[5..9]);
      EncodedLength(s[9..9 + len], EncodeOf(s[0]));
    }
    hide ReadU32, BigEndian, Decoded;
  }

  // ---------- Streams can be parsed in pieces ----------

  /** The stream is exactly a number of whole frames. */
  predicate WholeFrames(s: seq<byte>)
    decreases |s|
  {
    s == [] ||
    match ParseTurn(s)
    case Stop => false
    case Skip(n) => WholeFrames(s[n..])
    case Emit(_, n) => WholeFrames(s[n..])
  }

  lemma BodyIgnoresTail(line: byte, tid: uint32, len: uint32, n: nat, s: seq<byte>, tail: seq<byte>)
    requires !ParseBody(line, tid, len, n, s).Stop?
    ensures ParseBody(line, tid, len, n, s + tail) == ParseBody(line, tid, len, n, s)
  {
    assert (s + tail)[..n] == s[..n];
  }

  lemma AfterHeaderIgnoresTail(line: byte, tid: uint32, s: seq<byte>, tail: seq<byte>)
    requires !ParseAfterHeader(line, tid, s).Stop?
    ensures ParseAfterHeader(line, tid, s + tail) == ParseAfterHeader(line, tid, s)
  {
    var len := ReadU32(s[..4]);
    assert (s + tail)[..4] == s[..4];
    assert (s + tail)[4..] == s[4..] + tail;
    BodyIgnoresTail(line, tid, len, len, s[4..], tail);
  }

  lemma HeaderKept(s: seq<byte>, tail: seq<byte>)
    requires FIX_HEADER_LEN <= |s|
    ensures (s + tail)[0] == s[0] && (s + tail)[1..5] == s[1..5] && (s + tail)[5..] == s[5..] + tail
  {
  }

  /** A turn that succeeds does not look past the bytes it consumes. */
  lemma TurnIgnoresTail(s: seq<byte>, tail: seq<byte>)
    requires !ParseTurn(s).Stop?
    ensures ParseTurn(s + tail) == ParseTurn(s)
  {
    HeaderKept(s, tail);
    var line, tid := s[0], ReadU32(s[1..5]);
    hide ParseAfterHeader, ReadU32, MsgTypeOf;
    if MsgTypeOf(line) != MSGTYPE_HEARTBEAT {
      AfterHeaderIgnoresTail(line, tid, s[5..], tail);
    }
  }

  /** Every turn consumes a bare header, or both headers and the declared body. */
  lemma TurnSize(s: seq<byte>)
    requires !ParseTurn(s).Stop?
    ensures if MsgTypeOf(s[0]) == MSGTYPE_HEARTBEAT then ParseTurn(s).size == FIX_HEADER_LEN
            else |s| >= HEADER_LEN && ParseTurn(s).size == HEADER_LEN + ReadU32(s[5..9])
  {
    assert |s| >= 9 ==> s[5..][..4] == s[5..9];
  }

  lemma {:induction false} ParseInPieces(s: seq<byte>, tail: seq<byte>)
    requires WholeFrames(s)
    ensures ParseAll(s + tail) == ParseAll(s) + ParseAll(tail)
    ensures WholeFrames(tail) ==> WholeFrames(s + tail)
    decreases |s|
  {
    hide ParseTurn;
    if s == [] {
      assert s + tail == tail;
    } else {
      TurnIgnoresTail(s, tail);
      var n := ParseTurn(s).size;
      assert (s + tail)[n..] == s[n..] + tail;
      ParseInPieces(s[n..], tail);
    }
  }

  // ---------- Parsing inverts packing ----------

  /** The frames a terminal may send: type and structure agree, the declared length is the
      body's, and a loop-XOR body is not empty. */
  predicate Upstream(f: Frame)
  {
    var msgType := f.line % 64;
    match f
    case HeaderOnly(_, _) => msgType == 3
    case Register(_, _, len, _, _, _, _) => msgType == 1 && len == 66
    case Resp(_, _, len, _) => msgType in {6, 8, 10, 12} && len == 1
    case ImUp(line, _, len, msg) =>
      msgType == 9 && len == |msg| && len <= 10_485_760 && (line / 64 == 3 ==> msg != [])
    case _ => false
  }

  /** Kick responses are read and thrown away. */
  predicate Delivered(f: Frame)
  {
    f.line % 64 != 12
  }

  lemma UpstreamPackable(f: Frame)
    requires Upstream(f)
    ensures Packable(f)
    ensures !f.HeaderOnly? ==> |Body(f)| == f.len && f.len <= MAX_MSG_LEN
  {
  }

  /** The body that a frame's payload decodes to. */
  lemma PayloadDecodes(f: Frame)
    requires Upstream(f) && !f.HeaderOnly?
    ensures Packable(f)
    ensures var p := Payload(Body(f), f.len, EncodeOf(f.line));
            |p| == f.len && Decoded(p, EncodeOf(f.line)) == Body(f)
  {
    UpstreamPackable(f);
    var body, encode := Body(f), EncodeOf(f.line);
    DecodeEncode(body, encode);
    ReachEnough(body, encode);
  }

  lemma InterpretBody(f: Frame, size: nat)
    requires Upstream(f) && !f.HeaderOnly? && Delivered(f)
    ensures Interpret(f.line, f.tid, f.len, Body(f), size) == Emit(f, size)
  {
    if f.Register? {
      var body := Body(f);
      assert body[2..34] == f.id && body[34..66] == f.token;
    }
  }

  lemma ParsePackedBody(f: Frame, n: nat, p: seq<byte>)
    requires Upstream(f) && !f.HeaderOnly?
    requires n == |p| && Decoded(p, EncodeOf(f.line)) == Body(f) && f.len <= MAX_MSG_LEN
    requires EncodeOf(f.line) == ENCODE_LOOP_XOR ==> p != []
    ensures ParseBody(f.line, f.tid, f.len, n, p)
         == if Delivered(f) then Emit(f, HEADER_LEN + n) else Skip(HEADER_LEN + n)
  {
    assert p[..n] == p;
    if Delivered(f) {
      InterpretBody(f, HEADER_LEN + n);
    }
  }

  /** Both headers are read back as they were laid out. */
  lemma TurnAfterHeaders(line: byte, tid: uint32, len: uint32, p: seq<byte>)
    requires MsgTypeOf(line) != MSGTYPE_DEFAULT && MsgTypeOf(line) != MSGTYPE_HEARTBEAT
    ensures ParseTurn(FixHeader(line, tid) + PackU32(len) + p) == ParseBody(line, tid, len, len, p)
  {
    var s := FixHeader(line, tid) + PackU32(len) + p;
    ReadPackU32(tid);
    ReadPackU32(len);
    assert s[1..5] == PackU32(tid);
    assert s[5..][..4] == PackU32(len);
    assert s[5..][4..] == p;
  }

  lemma ParsePacked(f: Frame)
    requires Upstream(f)
    ensures Packable(f)
    ensures ParseTurn(Packed(f)) == if Delivered(f) then Emit(f, |Packed(f)|) else Skip(|Packed(f)|)
  {
    UpstreamPackable(f);
    if f.HeaderOnly? {
      ReadPackU32(f.tid);
      assert Packed(f)[1..5] == PackU32(f.tid);
    } else {
      PayloadDecodes(f);
      var p := Payload(Body(f), f.len, EncodeOf(f.line));
      TurnAfterHeaders(f.line, f.tid, f.len, p);
      ParsePackedBody(f, f.len, p);
    }
  }

  lemma ParseOneFrame(f: Frame)
    requires Upstream(f)
    ensures Packable(f) && WholeFrames(Packed(f))
    ensures ParseAll(Packed(f)) == if Delivered(f) then [f] else []
  {
    ParsePacked(f);
    var s := Packed(f);
    assert s[|s|..] == [];
    assert ParseAll([]) == [];
  }

  lemma UpstreamsPackable(fs: seq<Frame>)
    requires forall f :: f in fs ==> Upstream(f)
    ensures forall f :: f in fs ==> Packable(f)
  {
    forall f | f in fs ensures Packable(f) {
      UpstreamPackable(f);
    }
  }

  function PackAll(fs: seq<Frame>): seq<byte>
    requires forall f :: f in fs ==> Packable(f)
  {
    if fs == [] then [] else Packed(fs[0]) + PackAll(fs[1..])
  }

  function DeliveredOf(fs: seq<Frame>): seq<Frame>
  {
    if fs == [] then [] else (if Delivered(fs[0]) then [fs[0]] else []) + DeliveredOf(fs[1..])
  }

  /** Any mix of well-formed frames, in any mix of encodings, comes out of the parser as it
      went in, in order, with the kick responses discarded. */
  lemma {:induction false} FramesRoundTrip(fs: seq<Frame>)
    requires forall f :: f in fs ==> Upstream(f)
    ensures forall f :: f in fs ==> Packable(f)
    ensures ParseAll(PackAll(fs)) == DeliveredOf(fs)
    ensures WholeFrames(PackAll(fs))
  {
    UpstreamsPackable(fs);
    if fs != [] {
      ParseOneFrame(fs[0]);
      FramesRoundTrip(fs[1..]);
      ParseInPieces(Packed(fs[0]), PackAll(fs[1..]));
    }
  }

  /** Well-formed traffic followed by any bytes at all: the frames are delivered first and
      the rest is parsed as if it came alone. */
  lemma FramesThenAnything(fs: seq<Frame>, tail: seq<byte>)
    requires forall f :: f in fs ==> Upstream(f)
    ensures forall f :: f in fs ==> Packable(f)
    ensures ParseAll(PackAll(fs) + tail) == DeliveredOf(fs) + ParseAll(tail)
  {
    FramesRoundTrip(fs);
    ParseInPieces(PackAll(fs), tail);
  }
}
