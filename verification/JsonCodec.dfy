/** The text form of websocket messages (internal/protocol/json.go): loop XOR, then base64 as
    in section 4 of RFC 4648. */
module JsonCodec {
  import opened Bytes
  import opened Codec

  // ---------- Base64 ----------

  const PAD: byte := 61
  const LINE_FEED: byte := 10
  const CARRIAGE_RETURN: byte := 13

  type sextet = x: int | 0 <= x < 64

  /** A-Z, a-z, 0-9, +, /. */
  function Letter(v: sextet): byte
  {
    if v < 26 then 65 + v
    else if v < 52 then 97 + (v - 26)
    else if v < 62 then 48 + (v - 52)
    else if v == 62 then 43 else 47
  }

  datatype Value = Value(v: sextet) | NoValue

  function ValueOf(c: byte): Value
  {
    if 65 <= c <= 90 then Value(c - 65)
    else if 97 <= c <= 122 then Value(c - 97 + 26)
    else if 48 <= c <= 57 then Value(c - 48 + 52)
    else if c == 43 then Value(62)
    else if c == 47 then Value(63)
    else NoValue
  }

  lemma LetterHasValue(v: sextet)
    ensures ValueOf(Letter(v)) == Value(v)
    ensures Letter(v) != PAD && Letter(v) != LINE_FEED && Letter(v) != CARRIAGE_RETURN
  {
  }

  /** How many padding signs end the text, of two at most. */
  function Pads(s: seq<byte>): (n: nat)
    ensures n <= 2 && n <= |s|
  {
    if s == [] || s[|s| - 1] != PAD then 0 else if |s| == 1 || s[|s| - 2] != PAD then 1 else 2
  }

  /** Whole groups of four, of letters up to the padding. */
  predicate WellPadded(s: seq<byte>)
  {
    |s| % 4 == 0 && forall i :: 0 <= i < |s| - Pads(s) ==> ValueOf(s[i]).Value?
  }

  /** The standard alphabet, in characters. */
  lemma LetterIs(v: sextet)
    ensures v < 26 ==> Letter(v) == 'A' as int + v
    ensures 26 <= v < 52 ==> Letter(v) == 'a' as int + (v - 26)
    ensures 52 <= v < 62 ==> Letter(v) == '0' as int + (v - 52)
    ensures v == 62 ==> Letter(v) == '+' as int
    ensures v == 63 ==> Letter(v) == '/' as int
    ensures PAD == '=' as int
  {
  }

  /** Three bytes as four letters; missing bytes at the end become padding. */
  function EncodeToString(b: seq<byte>): (s: seq<byte>)
    ensures |s| == (|b| + 2) / 3 * 4
  {
    if |b| == 0 then []
    else if |b| == 1 then [Letter(b[0] / 4), Letter(b[0] % 4 * 16), PAD, PAD]
    else if |b| == 2 then
      [Letter(b[0] / 4), Letter(b[0] % 4 * 16 + b[1] / 16), Letter(b[1] % 16 * 4), PAD]
    else
      [Letter(b[0] / 4), Letter(b[0] % 4 * 16 + b[1] / 16), Letter(b[1] % 16 * 4 + b[2] / 64), Letter(b[2] % 64)]
      + EncodeToString(b[3..])
  }

  datatype Result = Ok(bytes: seq<byte>) | CorruptInput

  function Prepend(head: seq<byte>, rest: Result): Result
  {
    if rest.Ok? then Ok(head + rest.bytes) else CorruptInput
  }

  /** Line breaks are ignored. */
  function Unbroken(s: seq<byte>): seq<byte>
  {
    if s == [] then []
    else if s[0] == LINE_FEED || s[0] == CARRIAGE_RETURN then Unbroken(s[1..])
    else [s[0]] + Unbroken(s[1..])
  }

  /** Groups of four letters; only the last may be padded, by one or two signs. Bits left over
      in a padded group are not looked at. */
  function DecodeGroups(s: seq<byte>): Result
  {
    if s == [] then Ok([])
    else if |s| < 4 || ValueOf(s[0]).NoValue? || ValueOf(s[1]).NoValue? then CorruptInput
    else
      var a, b, c, d := ValueOf(s[0]).v, ValueOf(s[1]).v, ValueOf(s[2]), ValueOf(s[3]);
      var first := a * 4 + b / 16;
      if s[2] == PAD then if s[3] == PAD && |s| == 4 then Ok([first]) else CorruptInput
      else if c.NoValue? then CorruptInput
      else
        var second := b % 16 * 16 + c.v / 4;
        if s[3] == PAD then if |s| == 4 then Ok([first, second]) else CorruptInput
        else if d.NoValue? then CorruptInput
        else Prepend([first, second, c.v % 4 * 64 + d.v], DecodeGroups(s[4..]))
  }

  function DecodeString(s: seq<byte>): Result
  {
    DecodeGroups(Unbroken(s))
  }

  /** The number of these digits, the most significant first. */
  function InBase(base: int, a: int, b: int, c: int, d: int): int
  {
    ((a * base + b) * base + c) * base + d
  }

  lemma SextetsOf(x: byte, y: byte, z: byte)
    ensures InBase(64, x / 4, x % 4 * 16 + y / 16, y % 16 * 4 + z / 64, z % 64) == InBase(256, 0, x, y, z)
  {
    assert x == x / 4 * 4 + x % 4 && y == y / 16 * 16 + y % 16 && z == z / 64 * 64 + z % 64;
  }

  /** The letters stand for this number in base 64. */
  predicate StandFor(a: byte, b: byte, c: byte, d: byte, n: int)
  {
    && ValueOf(a).Value? && ValueOf(b).Value? && ValueOf(c).Value? && ValueOf(d).Value?
    && InBase(64, ValueOf(a).v, ValueOf(b).v, ValueOf(c).v, ValueOf(d).v) == n
  }

  lemma LettersStandFor(p: sextet, q: sextet, r: sextet, t: sextet)
    ensures StandFor(Letter(p), Letter(q), Letter(r), Letter(t), InBase(64, p, q, r, t))
  {
    LetterHasValue(p);
    LetterHasValue(q);
    LetterHasValue(r);
    LetterHasValue(t);
    hide Letter, ValueOf, InBase;
  }

  lemma FirstGroup(b: seq<byte>)
    requires |b| >= 3
    ensures EncodeToString(b)
         == [Letter(b[0] / 4), Letter(b[0] % 4 * 16 + b[1] / 16), Letter(b[1] % 16 * 4 + b[2] / 64), Letter(b[2] % 64)]
            + EncodeToString(b[3..])
  {
    hide Letter;
  }

  /** Each three bytes are written as the four letters that stand for the same number. */
  lemma GroupIsNumber(b: seq<byte>)
    requires |b| >= 3
    ensures var s := EncodeToString(b);
      StandFor(s[0], s[1], s[2], s[3], InBase(256, 0, b[0], b[1], b[2])) && s[4..] == EncodeToString(b[3..])
  {
    var x, y, z := b[0], b[1], b[2];
    var p, q, r, t := x / 4, x % 4 * 16 + y / 16, y % 16 * 4 + z / 64, z % 64;
    hide *;
    SextetsOf(x, y, z);
    LettersStandFor(p, q, r, t);
    FirstGroup(b);
    HeadAndRest([Letter(p), Letter(q), Letter(r), Letter(t)], EncodeToString(b[3..]));
  }

  lemma HeadAndRest(head: seq<byte>, rest: seq<byte>)
    requires |head| == 4
    ensures var s := head + rest;
      s[0] == head[0] && s[1] == head[1] && s[2] == head[2] && s[3] == head[3] && s[4..] == rest
  {
  }

  /** Text decodes exactly if it is well padded, and then to three bytes for each group, but for the
      padding. */
  lemma {:induction false} DecodesExactly(s: seq<byte>)
    ensures DecodeGroups(s).Ok? <==> WellPadded(s)
    ensures WellPadded(s) ==> |DecodeGroups(s).bytes| == |s| / 4 * 3 - Pads(s)
  {
    if |s| > 4 {
      DecodesExactly(s[4..]);
      PaddedLater(s);
      LongerDecodes(s);
      hide DecodeGroups, WellPadded, Pads, ValueOf;
    }
  }

  lemma PaddedLater(s: seq<byte>)
    requires |s| > 4
    ensures WellPadded(s) <==> WellPadded(s[4..]) && forall i :: 0 <= i < 4 ==> ValueOf(s[i]).Value?
    ensures |s| % 4 == 0 ==> Pads(s) == Pads(s[4..])
    ensures WellPadded(s) ==> |s| % 4 == 0
  {
    var rest := s[4..];
    assert forall i :: 0 <= i < |rest| ==> rest[i] == s[i + 4];
    assert forall i :: 4 <= i < |s| ==> s[i] == rest[i - 4];
    hide ValueOf;
  }

  /** A group that is not the last must be of letters. */
  lemma LongerDecodes(s: seq<byte>)
    requires |s| > 4
    ensures DecodeGroups(s).Ok? <==> DecodeGroups(s[4..]).Ok? && forall i :: 0 <= i < 4 ==> ValueOf(s[i]).Value?
    ensures DecodeGroups(s).Ok? ==> |DecodeGroups(s).bytes| == 3 + |DecodeGroups(s[4..]).bytes|
  {
  }

  /** One full group: six, two and four, four and two, six bits. */
  lemma GroupRoundTrip(x: byte, y: byte, z: byte)
    ensures x / 4 * 4 + (x % 4 * 16 + y / 16) / 16 == x
    ensures (x % 4 * 16 + y / 16) % 16 * 16 + (y % 16 * 4 + z / 64) / 4 == y
    ensures (y % 16 * 4 + z / 64) % 4 * 64 + z % 64 == z
    ensures x / 4 * 4 + (x % 4 * 16) / 16 == x && (x % 4 * 16 + y / 16) % 16 * 16 + (y % 16 * 4) / 4 == y
  {
  }

  lemma FullGroup(p: sextet, q: sextet, r: sextet, t: sextet, rest: seq<byte>)
    ensures DecodeGroups([Letter(p), Letter(q), Letter(r), Letter(t)] + rest)
         == Prepend([p * 4 + q / 16, q % 16 * 16 + r / 4, r % 4 * 64 + t], DecodeGroups(rest))
  {
    LetterHasValue(p);
    LetterHasValue(q);
    LetterHasValue(r);
    LetterHasValue(t);
    hide Letter, ValueOf, Prepend;
    var s := [Letter(p), Letter(q), Letter(r), Letter(t)] + rest;
    assert s[4..] == rest;
  }

  lemma LastGroup(p: sextet, q: sextet, r: sextet)
    ensures DecodeGroups([Letter(p), Letter(q), PAD, PAD]) == Ok([p * 4 + q / 16])
    ensures DecodeGroups([Letter(p), Letter(q), Letter(r), PAD]) == Ok([p * 4 + q / 16, q % 16 * 16 + r / 4])
  {
    LetterHasValue(p);
    LetterHasValue(q);
    LetterHasValue(r);
    hide Letter, ValueOf;
  }

  lemma FullRoundTrip(x: byte, y: byte, z: byte, text: seq<byte>, rest: seq<byte>)
    requires DecodeGroups(text) == Ok(rest)
    ensures DecodeGroups([Letter(x / 4), Letter(x % 4 * 16 + y / 16), Letter(y % 16 * 4 + z / 64), Letter(z % 64)]
                         + text)
         == Ok([x, y, z] + rest)
  {
    hide DecodeGroups, Letter;
    var p, q, r, t := x / 4, x % 4 * 16 + y / 16, y % 16 * 4 + z / 64, z % 64;
    GroupRoundTrip(x, y, z);
    FullGroup(p, q, r, t, text);
  }

  lemma OneByteRoundTrip(x: byte)
    ensures DecodeGroups(EncodeToString([x])) == Ok([x])
  {
    LastGroup(x / 4, x % 4 * 16, 0);
    GroupRoundTrip(x, 0, 0);
    hide DecodeGroups, Letter;
  }

  lemma TwoByteRoundTrip(x: byte, y: byte)
    ensures DecodeGroups(EncodeToString([x, y])) == Ok([x, y])
  {
    LastGroup(x / 4, x % 4 * 16 + y / 16, y % 16 * 4);
    GroupRoundTrip(x, y, 0);
    hide DecodeGroups, Letter;
  }

  lemma {:induction false} GroupsRoundTrip(b: seq<byte>)
    ensures DecodeGroups(EncodeToString(b)) == Ok(b)
  {
    hide DecodeGroups, Letter;
    if |b| == 0 {
      EmptyRoundTrip();
    } else if |b| < 3 {
      OneByteRoundTrip(b[0]);
      TwoByteRoundTrip(b[0], b[|b| - 1]);
      assert b == if |b| == 1 then [b[0]] else [b[0], b[1]];
    } else {
      GroupsRoundTrip(b[3..]);
      FullRoundTrip(b[0], b[1], b[2], EncodeToString(b[3..]), b[3..]);
      assert [b[0], b[1], b[2]] + b[3..] == b;
    }
  }

  lemma EmptyRoundTrip()
    ensures DecodeGroups(EncodeToString([])) == Ok([])
  {
  }

  lemma {:induction false} EncodedUnbroken(b: seq<byte>)
    ensures forall k :: 0 <= k < |EncodeToString(b)| ==>
      EncodeToString(b)[k] != LINE_FEED && EncodeToString(b)[k] != CARRIAGE_RETURN
  {
    if |b| >= 3 {
      EncodedUnbroken(b[3..]);
    }
  }

  lemma {:induction false} UnbrokenSame(s: seq<byte>)
    requires forall k :: 0 <= k < |s| ==> s[k] != LINE_FEED && s[k] != CARRIAGE_RETURN
    ensures Unbroken(s) == s
  {
    if s != [] {
      UnbrokenSame(s[1..]);
    }
  }

  /** Decoding restores every byte sequence. */
  lemma Base64RoundTrip(b: seq<byte>)
    ensures DecodeString(EncodeToString(b)) == Ok(b)
  {
    EncodedUnbroken(b);
    UnbrokenSame(EncodeToString(b));
    GroupsRoundTrip(b);
  }

  // ---------- Encode and Decode ----------

  /** The codec on a whole buffer. */
  method Scramble(buff: array<byte>)
    requires buff.Length != 0
    modifies buff
    ensures buff[..] == Encoded(old(buff[..]), ENCODE_LOOP_XOR)
  {
    ghost var s := buff[..];
    hide Encoded, Decoded, Replaced, Reach;
    CodecEncode(buff, 0, buff.Length, ENCODE_LOOP_XOR);
    WholeSlice(s, buff[..], 0, buff.Length, ENCODE_LOOP_XOR);
    assert s[0..|s|] == s;
    WholeReplaced(s, buff[..], Encoded(s, ENCODE_LOOP_XOR));
  }

  method Unscramble(buff: array<byte>)
    requires buff.Length != 0
    modifies buff
    ensures buff[..] == Decoded(old(buff[..]), ENCODE_LOOP_XOR)
  {
    ghost var s := buff[..];
    hide Encoded, Decoded, Replaced, Reach;
    CodecDecode(buff, 0, buff.Length, ENCODE_LOOP_XOR);
    WholeSlice(s, buff[..], 0, buff.Length, ENCODE_LOOP_XOR);
    assert s[0..|s|] == s;
    WholeReplaced(s, buff[..], Decoded(s, ENCODE_LOOP_XOR));
  }

  /** The buffer is scrambled in place, and its new content written as text. */
  method Encode(buff: array<byte>) returns (s: seq<byte>)
    requires buff.Length != 0
    modifies buff
    ensures buff[..] == Encoded(old(buff[..]), ENCODE_LOOP_XOR) && s == EncodeToString(buff[..])
    ensures DecodeString(s) == Ok(buff[..]) && Decoded(buff[..], ENCODE_LOOP_XOR) == old(buff[..])
  {
    hide DecodeString, EncodeToString, Encoded, Decoded;
    DecodeEncode(buff[..], ENCODE_LOOP_XOR);
    Scramble(buff);
    s := EncodeToString(buff[..]);
    Base64RoundTrip(buff[..]);
  }

  datatype Decoding = Message(bytes: seq<byte>) | Failed
    /** No bytes at all: the loop XOR reaches for the first. */
    | Panicked

  function DecodedText(s: seq<byte>): Decoding
  {
    match DecodeString(s)
    case CorruptInput => Failed
    case Ok(b) => if b == [] then Panicked else Message(Decoded(b, ENCODE_LOOP_XOR))
  }

  method Decode(buff: seq<byte>) returns (r: Decoding)
    ensures r == DecodedText(buff)
  {
    hide DecodeString, EncodeToString, Encoded, Decoded;
    match DecodeString(buff) {
      case CorruptInput => r := Failed;
      case Ok(bytes) =>
        if bytes == [] {
          return Panicked;
        }
        var b := new byte[|bytes|](i requires 0 <= i < |bytes| => bytes[i]);
        assert b[..] == bytes;
        Unscramble(b);
        r := Message(b[..]);
    }
  }

  /** Decode undoes Encode on every non-empty buffer. */
  lemma {:induction false} TextRoundTrip(b: seq<byte>)
    requires b != []
    ensures DecodedText(EncodeToString(Encoded(b, ENCODE_LOOP_XOR))) == Message(b)
  {
    EncodedLength(b, ENCODE_LOOP_XOR);
    DecodeEncode(b, ENCODE_LOOP_XOR);
    Base64RoundTrip(Encoded(b, ENCODE_LOOP_XOR));
  }

  /** Decode panics exactly on text that is empty but for line breaks. */
  lemma {:induction false} PanicsExactly(s: seq<byte>)
    ensures DecodedText(s).Panicked? <==> forall k :: 0 <= k < |s| ==> s[k] == LINE_FEED || s[k] == CARRIAGE_RETURN
  {
    if s != [] {
      PanicsExactly(s[1..]);
      assert forall k :: 1 <= k < |s| ==> s[k] == s[1..][k - 1];
    }
  }
}
