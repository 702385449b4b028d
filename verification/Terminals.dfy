/** Terminal types and message types of internal/protocol/protocol.go. */
module Terminals {
  import opened Prelude

  /** The terminal types the system defines: one bit each. */
  type Plat = p: int | p == 1 || p == 2 || p == 4 || p == 8 || p == 16 witness 1

  const PLAT_ANDROID: Plat := 1
  const PLAT_IOS: Plat := 2
  const PLAT_WINPHONE: Plat := 4
  const PLAT_WEB: Plat := 8
  const PLAT_PC: Plat := 16

  /** The three kinds of downstream message. */
  datatype Kind = PushKind | CallbackKind | ImKind

  // ---------- Message types ----------

  const MSGTYPE_DEFAULT: nat := 0
  const MSGTYPE_REGISTER: nat := 1
  const MSGTYPE_HEARTBEAT: nat := 3
  const MSGTYPE_PUSH: nat := 5
  const MSGTYPE_PUSHRESP: nat := 6
  const MSGTYPE_CALLBACK: nat := 7
  const MSGTYPE_CBRESP: nat := 8
  const MSGTYPE_MESSAGE: nat := 9
  const MSGTYPE_MSGRESP: nat := 10
  const MSGTYPE_KICKRESP: nat := 12
  const MSGTYPE_MAX: nat := 64

  /** The kind of downstream message that a type number stands for, if any. */
  function KindOfType(msgType: nat): Option<Kind>
  {
    if msgType == MSGTYPE_PUSH then Some(PushKind)
    else if msgType == MSGTYPE_CALLBACK then Some(CallbackKind)
    else if msgType == MSGTYPE_MESSAGE then Some(ImKind)
    else None
  }

  // ---------- Masks of terminal types ----------

  /** `a | b`, for values of one bit each. */
  function BitOr(a: Plat, b: Plat): int
  {
    if a == b then a else a + b
  }

  /** `p & mask > 0`, for a value of one bit. */
  predicate InMask(p: Plat, mask: int)
  {
    if p == 1 then mask % 2 == 1
    else if p == 2 then mask / 2 % 2 == 1
    else if p == 4 then mask / 4 % 2 == 1
    else if p == 8 then mask / 8 % 2 == 1
    else mask / 16 % 2 == 1
  }

  /** The mask that addresses these types: the sum of their numbers. */
  function MaskOf(plats: set<Plat>): nat
  {
    (if 1 in plats then 1 else 0) + (if 2 in plats then 2 else 0) + (if 4 in plats then 4 else 0)
      + (if 8 in plats then 8 else 0) + (if 16 in plats then 16 else 0)
  }

  /** The test takes out the bit that is the type's number, of any mask; of the mask of a set of
      types it is the membership test. */
  lemma MaskAddresses(p: Plat, mask: int, plats: set<Plat>)
    ensures InMask(p, mask) <==> mask / p % 2 == 1
    ensures InMask(p, MaskOf(plats)) <==> p in plats
  {
    var a, b, c, d := if 1 in plats then 1 else 0, if 2 in plats then 1 else 0, if 4 in plats then 1 else 0,
      if 8 in plats then 1 else 0;
    var e := if 16 in plats then 1 else 0;
    BitsOf(a, b, c, d, e);
    assert MaskOf(plats) == a + 2 * b + 4 * c + 8 * d + 16 * e;
  }

  lemma BitsOf(a: nat, b: nat, c: nat, d: nat, e: nat)
    requires a <= 1 && b <= 1 && c <= 1 && d <= 1 && e <= 1
    ensures var mask := a + 2 * b + 4 * c + 8 * d + 16 * e;
      mask % 2 == a && mask / 2 % 2 == b && mask / 4 % 2 == c && mask / 8 % 2 == d && mask / 16 % 2 == e
  {
  }

  /** The router's test for two terminals that exclude each other. */
  predicate Exclusive(a: Plat, b: Plat)
  {
    a != b && 1 <= BitOr(a, b) <= 3
  }

  lemma ExclusiveIsPhones(a: Plat, b: Plat)
    ensures Exclusive(a, b) <==> {a, b} == {PLAT_ANDROID, PLAT_IOS}
  {
    if a == b {
      assert {a, b} == {a};
      assert PLAT_ANDROID in {PLAT_ANDROID, PLAT_IOS} && PLAT_IOS in {PLAT_ANDROID, PLAT_IOS};
    } else if !Exclusive(a, b) {
      assert a in {a, b} && b in {a, b};
    }
  }
}
