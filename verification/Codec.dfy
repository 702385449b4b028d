/** The body codecs of internal/protocol/code.go: four in-place transformations of the
    first `length` bytes of a slice. A Go slice is an array together with the offset
    `lo` at which the slice starts. */
module Codec {
  import opened Bytes

  const ENCODE_DEFAULT: nat := 0
  const ENCODE_BIT_NOT: nat := 1
  const ENCODE_BYTE_RVS: nat := 2
  const ENCODE_LOOP_XOR: nat := 3

  // ---------- What each codec means ----------

  /** Exclusive or of all bytes of `s`. */
  function XorAll(s: seq<byte>): byte
  {
    if s == [] then 0 else Xor(XorAll(s[..|s| - 1]), s[|s| - 1])
  }

  function Complement(s: seq<byte>): (r: seq<byte>)
  {
    seq(|s|, i requires 0 <= i < |s| => 255 - s[i])
  }

  /** Position of the byte that pairwise exchange puts at `i`: a trailing odd byte stays. */
  function Partner(i: nat, n: nat): (j: nat)
    requires i < n
    ensures j < n
  {
    if i % 2 == 1 then i - 1 else if i + 1 < n then i + 1 else i
  }

  function SwapPairs(s: seq<byte>): (r: seq<byte>)
  {
    seq(|s|, i requires 0 <= i < |s| => s[Partner(i, |s|)])
  }

  /** Loop XOR: every position but the first holds the XOR of the prefix up to it, and
      position 0 holds the XOR of all the later bytes. A single byte is left alone. */
  function LoopXor(s: seq<byte>): (r: seq<byte>)
  {
    if |s| <= 1 then s
    else seq(|s|, i requires 0 <= i < |s| => if i == 0 then XorAll(s[1..]) else PrefixXor(s, i))
  }

  function PrefixXor(s: seq<byte>, i: nat): byte
    requires i < |s|
  {
    XorAll(s[..i + 1])
  }

  /** The inverse, byte by byte: first restore position 0, then take differences. */
  function UnloopXor(s: seq<byte>): (r: seq<byte>)
  {
    if |s| <= 1 then s else seq(|s|, i requires 0 <= i < |s| => UnloopByte(s, i))
  }

  function UnloopByte(s: seq<byte>, i: nat): byte
    requires i < |s|
  {
    if i == 0 then Xor(s[0], s[|s| - 1])
    else if i == 1 then Xor(s[1], Xor(s[0], s[|s| - 1]))
    else Xor(s[i], s[i - 1])
  }

  function Encoded(s: seq<byte>, encode: nat): (r: seq<byte>)
  {
    if encode == ENCODE_BIT_NOT then Complement(s)
    else if encode == ENCODE_BYTE_RVS then SwapPairs(s)
    else if encode == ENCODE_LOOP_XOR then LoopXor(s)
    else s
  }

  function Decoded(s: seq<byte>, encode: nat): (r: seq<byte>)
  {
    if encode == ENCODE_BIT_NOT then Complement(s)
    else if encode == ENCODE_BYTE_RVS then SwapPairs(s)
    else if encode == ENCODE_LOOP_XOR then UnloopXor(s)
    else s
  }

  // ---------- The codecs are mutually inverse bijections ----------

  lemma ComplementInvolution(s: seq<byte>)
    ensures Complement(Complement(s)) == s
  {
  }

  lemma SwapPairsAt(s: seq<byte>)
    ensures |SwapPairs(s)| == |s|
    ensures forall j: nat :: 2 * j + 1 < |s| ==>
      SwapPairs(s)[2 * j] == s[2 * j + 1] && SwapPairs(s)[2 * j + 1] == s[2 * j]
    ensures |s| % 2 == 1 ==> SwapPairs(s)[|s| - 1] == s[|s| - 1]
  {
    forall j: nat | 2 * j + 1 < |s|
      ensures SwapPairs(s)[2 * j] == s[2 * j + 1] && SwapPairs(s)[2 * j + 1] == s[2 * j]
    {
      assert Partner(2 * j, |s|) == 2 * j + 1 && Partner(2 * j + 1, |s|) == 2 * j;
    }
  }

  lemma PartnerTwice(i: nat, n: nat)
    requires i < n
    ensures Partner(Partner(i, n), n) == i
  {
  }

  lemma SwapPairsInvolution(s: seq<byte>)
    ensures SwapPairs(SwapPairs(s)) == s
  {
    var r := SwapPairs(s);
    forall i | 0 <= i < |s| ensures SwapPairs(r)[i] == s[i] {
      PartnerTwice(i, |s|);
      assert SwapPairs(r)[i] == r[Partner(i, |s|)];
    }
  }

  lemma {:induction false} XorAllSplit(s: seq<byte>, k: nat)
    requires k <= |s|
    ensures XorAll(s) == Xor(XorAll(s[..k]), XorAll(s[k..]))
  {
    if k == |s| {
      assert s[..k] == s;
      XorZero(XorAll(s));
    } else {
      var front := s[..|s| - 1];
      XorAllSplit(front, k);
      assert front[..k] == s[..k] && front[k..] == s[k..][..|s| - k - 1];
      XorAssoc(XorAll(s[..k]), XorAll(front[k..]), s[|s| - 1]);
    }
  }

  lemma XorAllOne(s: seq<byte>)
    requires |s| == 1
    ensures XorAll(s) == s[0]
  {
    assert XorAll(s[..0]) == 0;
    XorZero(s[0]);
  }

  lemma XorAllStep(s: seq<byte>, k: nat)
    requires k < |s|
    ensures XorAll(s[..k + 1]) == Xor(XorAll(s[..k]), s[k])
  {
    assert s[..k + 1][..k] == s[..k];
  }

  lemma LoopXorAt(s: seq<byte>)
    requires |s| > 1
    ensures |LoopXor(s)| == |s|
    ensures LoopXor(s)[0] == Xor(s[0], XorAll(s))
    ensures forall i :: 1 <= i < |s| ==> LoopXor(s)[i] == PrefixXor(s, i)
  {
    XorAllSplit(s, 1);
    XorAllOne(s[..1]);
    XorCancel(s[0], XorAll(s[1..]));
  }

  /** Restored byte `i` is the encoded one XOR the byte that stands before it at that time. */
  ghost predicate Difference(s: seq<byte>, r: seq<byte>, i: nat)
    requires 1 <= i < |s| == |r|
  {
    r[i] == Xor(s[i], if i == 1 then r[0] else s[i - 1])
  }

  lemma UnloopXorAt(s: seq<byte>)
    requires 1 < |s|
    ensures |UnloopXor(s)| == |s|
    ensures UnloopXor(s)[0] == Xor(s[0], s[|s| - 1])
    ensures forall i :: 1 <= i < |s| ==> Difference(s, UnloopXor(s), i)
  {
  }

  lemma UnloopAfterLoopFirst(s: seq<byte>)
    requires 1 < |s|
    ensures |LoopXor(s)| == |s|
    ensures Xor(LoopXor(s)[0], LoopXor(s)[|s| - 1]) == s[0]
  {
    LoopXorAt(s);
    assert s[..|s|] == s;
    assert LoopXor(s)[|s| - 1] == XorAll(s);
    XorCancel(XorAll(s), s[0]);
  }

  lemma PrefixXorEnds(s: seq<byte>)
    requires s != []
    ensures PrefixXor(s, 0) == s[0] && PrefixXor(s, |s| - 1) == XorAll(s)
  {
    XorAllOne(s[..1]);
    assert s[..|s|] == s;
  }

  lemma PrefixXorNext(s: seq<byte>, i: nat)
    requires i + 1 < |s|
    ensures PrefixXor(s, i + 1) == Xor(PrefixXor(s, i), s[i + 1])
  {
    XorAllStep(s, i + 1);
  }

  lemma PrefixXorStep(s: seq<byte>, i: nat)
    requires 1 <= i < |s|
    ensures Xor(PrefixXor(s, i), PrefixXor(s, i - 1)) == s[i]
  {
    XorAllStep(s, i);
    XorCancel(PrefixXor(s, i - 1), s[i]);
  }

  lemma UnloopAfterLoopAt(s: seq<byte>, i: nat)
    requires 1 < |s| && i < |s|
    ensures |LoopXor(s)| == |s| && UnloopByte(LoopXor(s), i) == s[i]
  {
    UnloopAfterLoopFirst(s);
    if i > 0 {
      LoopXorAt(s);
      PrefixXorStep(s, i);
      if i == 1 {
        XorAllOne(s[..1]);
        assert PrefixXor(s, 0) == s[0];
      }
    }
  }

  lemma UnloopAfterLoop(s: seq<byte>)
    ensures UnloopXor(LoopXor(s)) == s
  {
    if |s| > 1 {
      forall i: nat | i < |s| ensures |LoopXor(s)| == |s| && UnloopByte(LoopXor(s), i) == s[i] {
        UnloopAfterLoopAt(s, i);
      }
    }
  }

  /** Prefix XORs of the restored bytes are the encoded bytes: differences telescope. */
  lemma {:induction false} UnloopPrefix(e: seq<byte>, k: nat)
    requires 1 <= k < |e|
    ensures |UnloopXor(e)| == |e| && PrefixXor(UnloopXor(e), k) == e[k]
  {
    var d := UnloopXor(e);
    UnloopXorAt(e);
    assert Difference(e, d, k);
    XorAllStep(d, k);
    if k == 1 {
      XorAllOne(d[..1]);
    } else {
      UnloopPrefix(e, k - 1);
    }
    XorCancel(XorAll(d[..k]), e[k]);
  }

  lemma LoopAfterUnloop(e: seq<byte>)
    ensures LoopXor(UnloopXor(e)) == e
  {
    if |e| > 1 {
      var d := UnloopXor(e);
      LoopXorAt(d);
      forall i | 1 <= i < |e| ensures PrefixXor(d, i) == e[i] {
        UnloopPrefix(e, i);
      }
      UnloopPrefix(e, |e| - 1);
      assert d[..|d|] == d;
      XorCancel(e[|e| - 1], e[0]);
    }
  }

  lemma EncodedLength(s: seq<byte>, encode: nat)
    ensures |Encoded(s, encode)| == |Decoded(s, encode)| == |s|
  {
  }

  lemma DecodeEncode(s: seq<byte>, encode: nat)
    ensures |Encoded(s, encode)| == |s|
    ensures Decoded(Encoded(s, encode), encode) == s
  {
    ComplementInvolution(s);
    SwapPairsInvolution(s);
    UnloopAfterLoop(s);
  }

  lemma EncodeDecode(s: seq<byte>, encode: nat)
    ensures |Decoded(s, encode)| == |s|
    ensures Encoded(Decoded(s, encode), encode) == s
  {
    ComplementInvolution(s);
    SwapPairsInvolution(s);
    LoopAfterUnloop(s);
  }

  /** Two bodies that differ stay different: each codec is injective and onto bodies of
      the same length. */
  lemma EncodedBijective(s: seq<byte>, t: seq<byte>, encode: nat)
    ensures Encoded(s, encode) == Encoded(t, encode) <==> s == t
    ensures exists u :: |u| == |s| && Encoded(u, encode) == s
  {
    DecodeEncode(s, encode);
    DecodeEncode(t, encode);
    EncodeDecode(s, encode);
  }

  /** How many bytes of the slice a codec touches, of a length it was told: pairs leave out an
      odd last byte, loop XOR returns at once on a single byte, other encodings touch nothing. */
  function Reach(length: nat, encode: nat): (n: nat)
    ensures n <= length
  {
    if encode == ENCODE_BIT_NOT then length
    else if encode == ENCODE_BYTE_RVS then length - length % 2
    else if encode == ENCODE_LOOP_XOR && length != 1 then length
    else 0
  }

  /** The four numbers on the wire: 1 complements every byte, 2 exchanges the bytes of each pair and
      leaves an odd last one, 3 is the loop XOR, which a single byte survives, and 0, like any other
      number, changes nothing. */
  lemma ByNumber(s: seq<byte>, encode: nat)
    ensures var r := Encoded(s, encode);
      && |r| == |s|
      && (encode == 1 ==> forall i :: 0 <= i < |s| ==> r[i] + s[i] == 255)
      && (encode == 2 ==> forall i :: 0 <= i < |s| ==>
            r[i] == s[if i % 2 == 1 then i - 1 else if i + 1 < |s| then i + 1 else i])
      && (encode == 3 && |s| > 1 ==>
            r[0] == XorAll(s[1..]) && forall i :: 0 < i < |s| ==> r[i] == XorAll(s[..i + 1]))
      && ((encode !in {1, 2, 3} || (encode == 3 && |s| <= 1)) ==> r == s)
  {
    hide XorAll;
  }

  /** The bytes out of reach are those that the codec means to leave alone. */
  lemma ReachEnough(s: seq<byte>, encode: nat)
    ensures var n := Reach(|s|, encode);
      && Encoded(s, encode) == Encoded(s[..n], encode) + s[n..]
      && Decoded(s, encode) == Decoded(s[..n], encode) + s[n..]
  {
    var n := Reach(|s|, encode);
    if encode == ENCODE_BYTE_RVS {
      SwapPairsHead(s, n);
    } else if n == |s| {
      assert s[..n] == s && s[n..] == [];
      assert Encoded(s, encode) + [] == Encoded(s, encode) && Decoded(s, encode) + [] == Decoded(s, encode);
    }
  }

  lemma SwapPairsHead(s: seq<byte>, n: nat)
    requires n == |s| - |s| % 2
    ensures SwapPairs(s) == SwapPairs(s[..n]) + s[n..]
  {
    forall i | 0 <= i < |s|
      ensures SwapPairs(s)[i] == (SwapPairs(s[..n]) + s[n..])[i]
    {
      assert i < n ==> Partner(i, |s|) == Partner(i, n);
    }
  }

  // ---------- The in-place algorithms ----------

  /** The slice's new content when its first `|done|` bytes became `done`. */
  ghost predicate Replaced(before: seq<byte>, after: seq<byte>, lo: nat, done: seq<byte>)
    requires lo + |done| <= |before|
  {
    after == before[..lo] + done + before[lo + |done|..]
  }

  lemma ReplacedPointwise(before: seq<byte>, after: seq<byte>, lo: nat, done: seq<byte>)
    requires lo + |done| <= |before| == |after|
    requires forall k :: lo <= k < lo + |done| ==> after[k] == done[k - lo]
    requires forall k :: 0 <= k < lo || lo + |done| <= k < |before| ==> after[k] == before[k]
    ensures Replaced(before, after, lo, done)
  {
  }

  lemma ReplacedTwice(before: seq<byte>, mid: seq<byte>, after: seq<byte>, lo: nat, done: seq<byte>, last: seq<byte>)
    requires |done| == |last| && lo + |done| <= |before|
    requires Replaced(before, mid, lo, done)
    ensures |mid| == |before| && mid[lo..lo + |done|] == done
    ensures Replaced(mid, after, lo, last) ==> Replaced(before, after, lo, last)
  {
    assert mid[..lo] == before[..lo] && mid[lo + |done|..] == before[lo + |done|..];
  }

  lemma WholeReplaced(before: seq<byte>, after: seq<byte>, done: seq<byte>)
    requires |done| == |before| && Replaced(before, after, 0, done)
    ensures after == done
  {
  }

  method FlipBits(b: array<byte>, lo: nat, length: nat, ghost s: seq<byte>, ghost r: seq<byte>)
    requires length == |s| == |r| && lo + length <= b.Length
    requires forall k :: lo <= k < lo + length ==> b[k] == s[k - lo]
    requires forall i :: 0 <= i < length ==> r[i] == 255 - s[i]
    modifies b
    ensures Replaced(old(b[..]), b[..], lo, r)
  {
    var i := 0;
    while i < length
      invariant i <= length
      invariant forall k :: lo <= k < lo + i ==> b[k] == r[k - lo]
      invariant forall k :: lo + i <= k < lo + length ==> b[k] == s[k - lo]
      invariant forall k :: 0 <= k < lo || lo + length <= k < b.Length ==> b[k] == old(b[k])
    {
      assert r[i] == 255 - s[i];
      b[lo + i] := 255 - b[lo + i];
      i := i + 1;
    }
    ReplacedPointwise(old(b[..]), b[..], lo, r);
  }

  method SwapNeighbours(b: array<byte>, lo: nat, length: nat, ghost r: seq<byte>)
    requires |r| == Reach(length, ENCODE_BYTE_RVS) && lo + |r| <= b.Length
    requires forall j: nat :: 2 * j + 1 < |r| ==> r[2 * j] == b[lo + 2 * j + 1] && r[2 * j + 1] == b[lo + 2 * j]
    modifies b
    ensures Replaced(old(b[..]), b[..], lo, r)
  {
    var n := if length % 2 != 0 then length - 1 else length;
    var i := 0;
    ghost var j: nat := 0;
    while i < n
      invariant i == 2 * j <= n
      invariant forall k :: lo <= k < lo + i ==> b[k] == r[k - lo]
      invariant forall k :: 0 <= k < lo || lo + i <= k < b.Length ==> b[k] == old(b[k])
    {
      b[lo + i], b[lo + i + 1] := b[lo + i + 1], b[lo + i];
      i, j := i + 2, j + 1;
    }
    ReplacedPointwise(old(b[..]), b[..], lo, r);
  }

  method LoopXorInPlace(b: array<byte>, lo: nat, length: nat, ghost s: seq<byte>, ghost r: seq<byte>)
    requires 1 < length == |s| == |r| && lo + length <= b.Length
    requires forall k :: lo <= k < lo + length ==> b[k] == s[k - lo]
    requires r[0] == Xor(s[0], XorAll(s))
    requires forall i :: 1 <= i < length ==> r[i] == PrefixXor(s, i)
    modifies b
    ensures Replaced(old(b[..]), b[..], lo, r)
  {
    PrefixXorEnds(s);
    var i := 0;
    while i < length - 1
      invariant i <= length - 1
      invariant b[lo] == s[0] && b[lo + i] == PrefixXor(s, i)
      invariant forall k :: lo < k <= lo + i ==> b[k] == r[k - lo]
      invariant forall k :: lo + i < k < lo + length ==> b[k] == s[k - lo]
      invariant forall k :: 0 <= k < lo || lo + length <= k < b.Length ==> b[k] == old(b[k])
    {
      PrefixXorNext(s, i);
      XorComm(s[i + 1], PrefixXor(s, i));
      b[lo + i + 1] := Xor(b[lo + i + 1], b[lo + i]);
      i := i + 1;
    }
    b[lo] := Xor(b[lo], b[lo + length - 1]);
    ReplacedPointwise(old(b[..]), b[..], lo, r);
  }

  method UnloopXorInPlace(b: array<byte>, lo: nat, length: nat, ghost s: seq<byte>, ghost r: seq<byte>)
    requires 1 < length == |r| == |s| && lo + length <= b.Length
    requires forall k :: lo <= k < lo + length ==> b[k] == s[k - lo]
    requires r[0] == Xor(s[0], s[length - 1])
    requires forall i :: 1 <= i < length ==> Difference(s, r, i)
    modifies b
    ensures Replaced(old(b[..]), b[..], lo, r)
  {
    b[lo] := Xor(b[lo], b[lo + length - 1]);
    var i := length - 1;
    while i > 0
      invariant 0 <= i < length
      invariant b[lo] == r[0]
      invariant forall k :: lo < k <= lo + i ==> b[k] == s[k - lo]
      invariant forall k :: lo + i < k < lo + length ==> b[k] == r[k - lo]
      invariant forall k :: 0 <= k < lo || lo + length <= k < b.Length ==> b[k] == old(b[k])
    {
      assert Difference(s, r, i);
      assert b[lo + i - 1] == if i == 1 then r[0] else s[i - 1];
      b[lo + i] := Xor(b[lo + i], b[lo + i - 1]);
      i := i - 1;
    }
    ReplacedPointwise(old(b[..]), b[..], lo, r);
  }

  /** Encoding of a message body. Loop XOR reads `b[length-1]`, so it needs a byte. */
  method CodecEncode(b: array<byte>, lo: nat, length: nat, encode: nat)
    requires lo + Reach(length, encode) <= b.Length
    requires encode == ENCODE_LOOP_XOR ==> length != 0
    modifies b
    ensures var s := old(b[lo..lo + Reach(length, encode)]);
      |Encoded(s, encode)| == |s| && Replaced(old(b[..]), b[..], lo, Encoded(s, encode))
  {
    ghost var s := b[lo..lo + Reach(length, encode)];
    EncodedLength(s, encode);
    hide LoopXor, SwapPairs, Partner, PrefixXor;
    if encode == ENCODE_BIT_NOT {
      FlipBits(b, lo, length, s, Complement(s));
    } else if encode == ENCODE_BYTE_RVS {
      SwapPairsAt(s);
      SwapNeighbours(b, lo, length, SwapPairs(s));
    } else if encode == ENCODE_LOOP_XOR {
      if length == 1 {
        return;
      }
      LoopXorAt(s);
      LoopXorInPlace(b, lo, length, s, LoopXor(s));
    }
  }

  method CodecDecode(b: array<byte>, lo: nat, length: nat, encode: nat)
    requires lo + Reach(length, encode) <= b.Length
    requires encode == ENCODE_LOOP_XOR ==> length != 0
    modifies b
    ensures var s := old(b[lo..lo + Reach(length, encode)]);
      |Decoded(s, encode)| == |s| && Replaced(old(b[..]), b[..], lo, Decoded(s, encode))
  {
    ghost var s := b[lo..lo + Reach(length, encode)];
    EncodedLength(s, encode);
    assert Decoded(s, encode) == if encode == ENCODE_BIT_NOT then Complement(s)
      else if encode == ENCODE_BYTE_RVS then SwapPairs(s) else if encode == ENCODE_LOOP_XOR then UnloopXor(s) else s;
    hide Decoded, Complement, UnloopXor, SwapPairs, Partner, UnloopByte;
    if encode == ENCODE_BIT_NOT {
      FlipBits(b, lo, length, s, Complement(s));
    } else if encode == ENCODE_BYTE_RVS {
      SwapPairsAt(s);
      SwapNeighbours(b, lo, length, SwapPairs(s));
    } else if encode == ENCODE_LOOP_XOR {
      if length == 1 {
        return;
      }
      UnloopXorAt(s);
      UnloopXorInPlace(b, lo, length, s, UnloopXor(s));
    }
  }

  lemma RoundTripSlices(was: seq<byte>, mid: seq<byte>, after: seq<byte>, lo: nat, s: seq<byte>, e: seq<byte>)
    requires lo + |s| <= |was| && |e| == |s| && s == was[lo..lo + |s|]
    requires Replaced(was, mid, lo, e) && |mid| == |was|
    requires Replaced(mid, after, lo, s)
    ensures after == was
  {
    ReplacedTwice(was, mid, after, lo, e, s);
    assert was == was[..lo] + s + was[lo + |s|..];
  }

  lemma EncodedAndBack(was: seq<byte>, mid: seq<byte>, after: seq<byte>, lo: nat, n: nat, encode: nat)
    requires lo + n <= |was| == |mid| && |Encoded(was[lo..lo + n], encode)| == n
    requires Replaced(was, mid, lo, Encoded(was[lo..lo + n], encode))
    requires |Decoded(mid[lo..lo + n], encode)| == n && Replaced(mid, after, lo, Decoded(mid[lo..lo + n], encode))
    ensures after == was
  {
    var s := was[lo..lo + n];
    DecodeEncode(s, encode);
    hide Encoded, Decoded;
    ReplacedTwice(was, mid, mid, lo, Encoded(s, encode), Encoded(s, encode));
    RoundTripSlices(was, mid, after, lo, s, Encoded(s, encode));
  }

  lemma DecodedAndBack(was: seq<byte>, mid: seq<byte>, after: seq<byte>, lo: nat, n: nat, encode: nat)
    requires lo + n <= |was| == |mid| && |Decoded(was[lo..lo + n], encode)| == n
    requires Replaced(was, mid, lo, Decoded(was[lo..lo + n], encode))
    requires |Encoded(mid[lo..lo + n], encode)| == n && Replaced(mid, after, lo, Encoded(mid[lo..lo + n], encode))
    ensures after == was
  {
    var s := was[lo..lo + n];
    EncodeDecode(s, encode);
    hide Encoded, Decoded;
    ReplacedTwice(was, mid, mid, lo, Decoded(s, encode), Decoded(s, encode));
    RoundTripSlices(was, mid, after, lo, s, Decoded(s, encode));
  }

  /** Encoding then decoding a slice of a buffer, in place, restores the whole buffer. */
  method CodecRoundTrip(b: array<byte>, lo: nat, length: nat, encode: nat)
    requires lo + Reach(length, encode) <= b.Length
    requires encode == ENCODE_LOOP_XOR ==> length != 0
    modifies b
    ensures b[..] == old(b[..])
  {
    hide Encoded, Decoded, Reach, Replaced;
    ghost var was, n := b[..], Reach(length, encode);
    assert was[lo..lo + n] == b[lo..lo + n];
    CodecEncode(b, lo, length, encode);
    ghost var mid := b[..];
    assert mid[lo..lo + n] == b[lo..lo + n];
    CodecDecode(b, lo, length, encode);
    EncodedAndBack(was, mid, b[..], lo, n, encode);
  }

  /** And so does decoding then encoding it. */
  method CodecReverseTrip(b: array<byte>, lo: nat, length: nat, encode: nat)
    requires lo + Reach(length, encode) <= b.Length
    requires encode == ENCODE_LOOP_XOR ==> length != 0
    modifies b
    ensures b[..] == old(b[..])
  {
    hide Encoded, Decoded, Reach, Replaced;
    ghost var was, n := b[..], Reach(length, encode);
    assert was[lo..lo + n] == b[lo..lo + n];
    CodecDecode(b, lo, length, encode);
    ghost var mid := b[..];
    assert mid[lo..lo + n] == b[lo..lo + n];
    CodecEncode(b, lo, length, encode);
    DecodedAndBack(was, mid, b[..], lo, n, encode);
  }

  /** On a slice as long as the codec was told, all of it is encoded or decoded. */
  lemma WholeSlice(before: seq<byte>, after: seq<byte>, lo: nat, length: nat, encode: nat)
    requires lo + length <= |before|
    ensures var s, n := before[lo..lo + length], Reach(length, encode);
      && |Encoded(s, encode)| == |Decoded(s, encode)| == length
      && |Encoded(s[..n], encode)| == |Decoded(s[..n], encode)| == n && s[..n] == before[lo..lo + n]
      && (Replaced(before, after, lo, Encoded(s[..n], encode)) ==> Replaced(before, after, lo, Encoded(s, encode)))
      && (Replaced(before, after, lo, Decoded(s[..n], encode)) ==> Replaced(before, after, lo, Decoded(s, encode)))
  {
    hide *;
    var s, n := before[lo..lo + length], Reach(length, encode);
    SliceParts(before, lo, length, n);
    EncodedLength(s, encode);
    EncodedLength(s[..n], encode);
    ReachEnough(s, encode);
    WidenedTo(before, after, lo, Encoded(s[..n], encode), s[n..], Encoded(s, encode));
    WidenedTo(before, after, lo, Decoded(s[..n], encode), s[n..], Decoded(s, encode));
  }

  lemma WidenedTo(before: seq<byte>, after: seq<byte>, lo: nat, done: seq<byte>, rest: seq<byte>, all: seq<byte>)
    requires all == done + rest && lo + |all| <= |before| && before[lo + |done|..lo + |all|] == rest
    ensures Replaced(before, after, lo, done) ==> Replaced(before, after, lo, all)
  {
    hide Replaced;
    Widened(before, after, lo, done, rest);
  }

  lemma SliceParts(before: seq<byte>, lo: nat, length: nat, n: nat)
    requires lo + length <= |before| && n <= length
    ensures before[lo..lo + length][..n] == before[lo..lo + n]
    ensures before[lo..lo + length][n..] == before[lo + n..lo + n + (length - n)]
  {
  }

  lemma Widened(before: seq<byte>, after: seq<byte>, lo: nat, done: seq<byte>, rest: seq<byte>)
    requires lo + |done| + |rest| <= |before| && before[lo + |done|..lo + |done| + |rest|] == rest
    ensures Replaced(before, after, lo, done) ==> Replaced(before, after, lo, done + rest)
  {
    assert before[lo + |done|..] == rest + before[lo + |done| + |rest|..];
    assert before[..lo] + done + (rest + before[lo + |done| + |rest|..])
        == before[..lo] + (done + rest) + before[lo + |done| + |rest|..];
  }
}
