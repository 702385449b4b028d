/** A comet's session and its transactions (comet/session.go). */
module CometSession {
  import opened Prelude
  import opened Terminals

  // ---------- Transaction ids ----------

  const MAX_UINT32: int := 0x7FFF_FFFF

  /** How many ids there are before they start again. */
  const PERIOD: int := MAX_UINT32 - 1

  /** The id that the k-th call of `NextTid` returns; 0 before the first call. */
  function TidAt(k: nat): int
  {
    if k == 0 then 0 else (k - 1) % PERIOD + 1
  }

  lemma TidRange(k: nat)
    requires k > 0
    ensures 1 <= TidAt(k) <= 0x7FFF_FFFE
  {
  }

  /** Any 2^31-2 consecutive ids are distinct. */
  lemma TidsDistinct(i: nat, j: nat)
    requires 0 < i < j < i + 0x7FFF_FFFE
    ensures TidAt(i) != TidAt(j)
  {
    var p, q := (i - 1) / PERIOD, (j - 1) / PERIOD;
    var a, b := (i - 1) % PERIOD, (j - 1) % PERIOD;
    assert j - i == (q - p) * PERIOD + (b - a);
  }

  /** And then they come again. */
  lemma TidsRepeat(k: nat)
    requires k > 0
    ensures TidAt(k + 0x7FFF_FFFE) == TidAt(k)
  {
    assert (k - 1 + PERIOD) % PERIOD == (k - 1) % PERIOD;
  }

  // ---------- Transactions ----------

  datatype Trans = Trans(tid: int, kind: Kind, msg: string, armed: bool)

  /** What the proof remembers of a transaction: the call of `NextTid` that gave its id, and
      the message it carries. */
  datatype Mark = Mark(born: nat, message: nat)

  /** Position of the first transaction with this id, or the length of the list. */
  function FirstTid(ts: seq<Trans>, tid: int): (i: nat)
    ensures i <= |ts|
    ensures i < |ts| ==> ts[i].tid == tid
    ensures forall j :: 0 <= j < i ==> ts[j].tid != tid
  {
    if ts == [] || ts[0].tid == tid then 0 else 1 + FirstTid(ts[1..], tid)
  }

  lemma {:induction false} FirstTidIs(ts: seq<Trans>, tid: int, i: nat)
    requires i <= |ts| && (i < |ts| ==> ts[i].tid == tid)
    requires forall j :: 0 <= j < i ==> ts[j].tid != tid
    ensures FirstTid(ts, tid) == i
  {
    if i > 0 {
      FirstTidIs(ts[1..], tid, i - 1);
    }
  }

  function Disarmed(ts: seq<Trans>): (r: seq<Trans>)
    ensures |r| == |ts|
  {
    seq(|ts|, i requires 0 <= i < |ts| => ts[i].(armed := false))
  }

  class Session {
    const id: string
    const plat: Plat
    const conn: string
    const encode: int
    const token: string
    var tid: int
    var trans: seq<Trans>
    ghost var calls: nat
    ghost var marks: seq<Mark>
    /** Whether `Destroy` was called. */
    ghost var ended: bool

    ghost predicate Valid()
      reads this
    {
      && tid == TidAt(calls) && |marks| == |trans|
      && (forall i :: 0 <= i < |trans| ==> 0 < marks[i].born <= calls && trans[i].tid == TidAt(marks[i].born))
      && (forall i, j :: 0 <= i < j < |trans| ==> marks[i].born < marks[j].born)
      && (forall i :: 0 <= i < |trans| ==> trans[i].armed == !ended)
    }

    /** No pending transaction has outlived a whole period of ids. */
    ghost predicate Young()
      reads this
    {
      forall i :: 0 <= i < |marks| ==> calls < marks[i].born + PERIOD
    }

    constructor (id: string, plat: Plat, conn: string, encode: int, token: string)
      ensures Valid() && trans == [] && calls == 0 && !ended
      ensures this.id == id && this.plat == plat && this.conn == conn && this.encode == encode && this.token == token
    {
      this.id, this.plat, this.conn, this.encode, this.token := id, plat, conn, encode, token;
      tid, trans, calls, marks, ended := 0, [], 0, [], false;
    }

    method NextTid() returns (r: int)
      requires Valid()
      modifies this`tid, this`calls
      ensures Valid() && calls == old(calls) + 1 && r == tid == TidAt(calls)
    {
      StepTid(calls);
      tid := tid + 1;
      if tid >= MAX_UINT32 {
        tid := 1;
      }
      r := tid;
      calls := calls + 1;
    }

    /** A new transaction under the id drawn last, with its timer running. */
    method SaveTransaction(kind: Kind, msg: string, ghost message: nat)
      requires Valid() && !ended && calls > 0
      requires forall i :: 0 <= i < |marks| ==> marks[i].born < calls
      modifies this`trans, this`marks
      ensures Valid()
      ensures trans == old(trans) + [Trans(tid, kind, msg, true)]
      ensures marks == old(marks) + [Mark(calls, message)]
    {
      trans := trans + [Trans(tid, kind, msg, true)];
      marks := marks + [Mark(calls, message)];
    }

    method GetTrans(tid: int) returns (i: Option<nat>)
      ensures i == if FirstTid(trans, tid) < |trans| then Some(FirstTid(trans, tid)) else None
    {
      var k := 0;
      while k < |trans|
        invariant k <= |trans|
        invariant forall j :: 0 <= j < k ==> trans[j].tid != tid
      {
        if trans[k].tid == tid {
          FirstTidIs(trans, tid, k);
          return Some(k);
        }
        k := k + 1;
      }
      FirstTidIs(trans, tid, k);
      i := None;
    }

    method DropAt(i: nat)
      requires Valid() && i < |trans|
      modifies this`trans, this`marks
      ensures Valid() && trans == Removed(old(trans), i) && marks == Removed(old(marks), i)
    {
      RemovedIs(trans, i);
      RemovedIs(marks, i);
      trans := trans[..i] + trans[i + 1..];
      marks := marks[..i] + marks[i + 1..];
      assert trans == Removed(old(trans), i) && marks == Removed(old(marks), i);
      hide Removed, TidAt;
    }

    /** Removes the first transaction with this id and stops its timer. */
    method DelTrans(tid: int) returns (gone: Option<Trans>)
      requires Valid()
      modifies this`trans, this`marks
      ensures Valid()
      ensures var i := FirstTid(old(trans), tid);
        if i < |old(trans)| then trans == Removed(old(trans), i) && marks == Removed(old(marks), i)
        else trans == old(trans) && marks == old(marks)
      ensures var i := FirstTid(old(trans), tid);
        gone == if i < |old(trans)| then Some(old(trans)[i].(armed := false)) else None
    {
      var k := 0;
      while k < |trans|
        invariant k <= |trans| && trans == old(trans) && marks == old(marks)
        invariant forall j :: 0 <= j < k ==> trans[j].tid != tid
      {
        if trans[k].tid == tid {
          FirstTidIs(trans, tid, k);
          gone := Some(trans[k].(armed := false));
          DropAt(k);
          return;
        }
        k := k + 1;
      }
      FirstTidIs(trans, tid, k);
      gone := None;
    }

    method Destroy()
      requires Valid()
      modifies this`trans, this`ended
      ensures Valid() && ended && trans == Disarmed(old(trans))
    {
      var k := 0;
      while k < |trans|
        invariant k <= |trans| == |old(trans)|
        invariant forall j :: 0 <= j < |trans| ==>
          trans[j] == if j < k then old(trans)[j].(armed := false) else old(trans)[j]
      {
        trans := trans[k := trans[k].(armed := false)];
        k := k + 1;
      }
      ended := true;
    }

    // ---------- Ids identify transactions ----------

    lemma PendingDistinct()
      requires Valid() && Young()
      ensures forall i, j :: 0 <= i < j < |trans| ==> trans[i].tid != trans[j].tid
    {
      forall i, j | 0 <= i < j < |trans|
        ensures trans[i].tid != trans[j].tid
      {
        TidsDistinct(marks[i].born, marks[j].born);
      }
    }

    /** While no transaction outlives a period, the id of a pending transaction finds it and
        nothing else. */
    lemma FindsItself(i: nat)
      requires Valid() && Young() && i < |trans|
      ensures FirstTid(trans, trans[i].tid) == i
    {
      PendingDistinct();
      FirstTidIs(trans, trans[i].tid, i);
    }
  }

  lemma StepTid(k: nat)
    ensures TidAt(k + 1) == if TidAt(k) + 1 >= MAX_UINT32 then 1 else TidAt(k) + 1
  {
    if k > 0 {
      var q, r := (k - 1) / PERIOD, (k - 1) % PERIOD;
      assert k - 1 == q * PERIOD + r;
      if r + 1 == PERIOD {
        assert k == (q + 1) * PERIOD;
        assert k % PERIOD == 0;
      } else {
        assert k == q * PERIOD + (r + 1);
        assert k % PERIOD == r + 1;
      }
    }
  }
}
