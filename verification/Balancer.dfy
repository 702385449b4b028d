/** The router's comets and the choice of the least loaded one (router/pool.go). */
module Balancer {
  import opened Prelude

  // ---------- Which comet a scan chooses ----------

  predicate Negative(loads: seq<int>)
  {
    exists i :: 0 <= i < |loads| && loads[i] < 0
  }

  /** `r` is the first position from `lo` on with the least load of that stretch. */
  predicate FirstMin(loads: seq<int>, lo: nat, r: nat)
  {
    && lo <= r < |loads|
    && (forall i :: lo <= i < r ==> loads[r] < loads[i])
    && (forall i :: r <= i < |loads| ==> loads[r] <= loads[i])
  }

  /** `z` is just past the last load of 0, or 0 when there is none. */
  predicate PastZeros(loads: seq<int>, z: nat)
  {
    z <= |loads| && (z > 0 ==> loads[z - 1] == 0) && forall i :: z <= i < |loads| ==> loads[i] != 0
  }

  predicate AfterZeros(loads: seq<int>, z: nat, r: nat)
  {
    PastZeros(loads, z) && if z == |loads| then r + 1 == z else FirstMin(loads, z, r)
  }

  /** What the scan chooses, in terms of all the loads: a load of 0 makes it forget what it has
      seen, unless a negative one came before. */
  ghost predicate Outcome(loads: seq<int>, r: nat)
    ensures Outcome(loads, r) ==> r < |loads|
  {
    r < |loads| &&
    if Negative(loads) then FirstMin(loads, 0, r)
    else exists z: nat :: AfterZeros(loads, z, r)
  }

  predicate GlobalMin(loads: seq<int>, r: nat)
  {
    r < |loads| && forall i :: 0 <= i < |loads| ==> loads[r] <= loads[i]
  }

  /** Every load of 0 is followed by a load other than 0, and one of them exists. */
  predicate ZeroForgotten(loads: seq<int>)
  {
    !Negative(loads) && loads != [] && loads[|loads| - 1] != 0 && 0 in loads
  }

  lemma OutcomeUnique(loads: seq<int>, r: nat, s: nat)
    requires Outcome(loads, r) && Outcome(loads, s)
    ensures r == s
  {
    if Negative(loads) {
      FirstMinUnique(loads, 0, r, s);
    } else {
      var y: nat :| AfterZeros(loads, y, r);
      var z: nat :| AfterZeros(loads, z, s);
      PastZerosUnique(loads, y, z);
      if z < |loads| {
        FirstMinUnique(loads, z, r, s);
      }
    }
  }

  lemma FirstMinUnique(loads: seq<int>, lo: nat, r: nat, s: nat)
    requires FirstMin(loads, lo, r) && FirstMin(loads, lo, s)
    ensures r == s
  {
    var a, b := loads[r], loads[s];
  }

  lemma PastZerosUnique(loads: seq<int>, y: nat, z: nat)
    requires PastZeros(loads, y) && PastZeros(loads, z)
    ensures y == z
  {
    var a, b := if y > 0 then loads[y - 1] else 0, if z > 0 then loads[z - 1] else 0;
  }

  lemma NoZeros(loads: seq<int>, z: nat)
    requires PastZeros(loads, z)
    ensures z > 0 ==> 0 in loads
  {
  }

  /** The choice is a least loaded comet unless, with no negative load about, an idle comet was
      seen and the last one visited is not idle. */
  lemma LeastExactly(loads: seq<int>, r: nat)
    requires Outcome(loads, r)
    ensures GlobalMin(loads, r) <==> !ZeroForgotten(loads)
  {
    if !Negative(loads) {
      var z: nat :| AfterZeros(loads, z, r);
      if ZeroForgotten(loads) {
        var i :| 0 <= i < |loads| && loads[i] == 0;
        assert z < |loads| && loads[r] > 0;
      } else if z < |loads| {
        NoZeros(loads, z);
      }
    }
  }

  /** With positive loads only, the choice is always a least loaded comet. */
  lemma PositiveLoads(loads: seq<int>, r: nat)
    requires Outcome(loads, r) && forall i :: 0 <= i < |loads| ==> loads[i] > 0
    ensures GlobalMin(loads, r)
  {
    LeastExactly(loads, r);
  }

  /** An idle comet visited before a busy one is passed over. */
  lemma IdleCometPassedOver(busy: int, r: nat)
    requires busy > 0 && Outcome([0, busy], r)
    ensures r == 1 && !GlobalMin([0, busy], r)
  {
    assert [0, busy][0] == 0;
    assert 0 in [0, busy];
    LeastExactly([0, busy], r);
  }

  // ---------- One step of the scan ----------

  lemma TakeAfterZero(loads: seq<int>, v: int)
    requires loads == [] || exists r: nat :: Outcome(loads, r) && loads[r] == 0
    ensures Outcome(loads + [v], |loads|)
  {
    var all := loads + [v];
    if loads == [] {
      assert AfterZeros(all, if v == 0 then 1 else 0, 0);
    } else {
      var r: nat :| Outcome(loads, r) && loads[r] == 0;
      if !Negative(loads) {
        var z: nat :| AfterZeros(loads, z, r);
        assert z == |loads|;
        if v < 0 {
          assert all[|loads|] < 0;
          assert forall i :: 0 <= i < |loads| ==> loads[i] >= 0;
        } else {
          NotNegative(loads, v);
          assert AfterZeros(all, if v == 0 then |all| else z, |loads|);
        }
      }
    }
  }

  lemma NotNegative(loads: seq<int>, v: int)
    ensures Negative(loads + [v]) <==> Negative(loads) || v < 0
  {
    if Negative(loads) {
      var i :| 0 <= i < |loads| && loads[i] < 0;
      assert (loads + [v])[i] < 0;
    }
    if v < 0 {
      assert (loads + [v])[|loads|] < 0;
    }
    if Negative(loads + [v]) && v >= 0 {
      var i :| 0 <= i <= |loads| && (loads + [v])[i] < 0;
      assert loads[i] < 0;
    }
  }

  /** A visited load other than 0: the next one is taken exactly when it is smaller. */
  lemma TakeSmaller(loads: seq<int>, v: int, r: nat)
    requires Outcome(loads, r) && loads[r] != 0
    ensures Outcome(loads + [v], if v < loads[r] then |loads| else r)
  {
    var all := loads + [v];
    NotNegative(loads, v);
    if !Negative(loads) {
      var z: nat :| AfterZeros(loads, z, r);
      assert z < |loads|;
      if v < 0 {
        assert forall i :: 0 <= i < |loads| ==> loads[i] >= 0;
        assert FirstMin(all, 0, |loads|);
      } else {
        assert AfterZeros(all, if v == 0 then |all| else z, if v < loads[r] then |loads| else r);
      }
    }
  }

  /** One comet more: taken if nothing or a load of 0 was remembered, or if it has fewer. */
  lemma TakeNext(loads: seq<int>, v: int, some: bool, r: nat)
    requires if some then Outcome(loads, r) else loads == []
    ensures Outcome(loads + [v], if !some || loads[r] == 0 || v < loads[r] then |loads| else r)
  {
    if some && loads[r] != 0 {
      TakeSmaller(loads, v, r);
    } else {
      TakeAfterZero(loads, v);
    }
  }

  // ---------- Every visiting order ----------

  /** An order in which ranging over the map may visit the comets. */
  ghost predicate Visits(online: map<string, int>, order: seq<string>)
  {
    && (forall i, j :: 0 <= i < j < |order| ==> order[i] != order[j])
    && (forall id :: id in order <==> id in online)
  }

  ghost function Loads(online: map<string, int>, order: seq<string>): (loads: seq<int>)
    requires Visits(online, order)
    ensures |loads| == |order|
    ensures forall i :: 0 <= i < |order| ==> loads[i] == online[order[i]]
  {
    seq(|order|, i requires 0 <= i < |order| && Visits(online, order) => online[order[i]])
  }

  ghost predicate LeastLoaded(online: map<string, int>, id: string)
  {
    id in online && forall other :: other in online ==> online[id] <= online[other]
  }

  lemma LeastOfLoads(online: map<string, int>, order: seq<string>, r: nat)
    requires Visits(online, order) && r < |order|
    ensures GlobalMin(Loads(online, order), r) <==> LeastLoaded(online, order[r])
  {
    var loads := Loads(online, order);
    assert order[r] in order;
    if GlobalMin(loads, r) {
      forall other | other in online
        ensures online[order[r]] <= online[other]
      {
        var i :| 0 <= i < |order| && order[i] == other;
        assert loads[r] <= loads[i];
      }
    }
    if LeastLoaded(online, order[r]) {
      forall i | 0 <= i < |order|
        ensures loads[r] <= loads[i]
      {
        assert order[i] in order;
      }
    }
  }

  lemma {:induction false} OutcomeExists(loads: seq<int>) returns (r: nat)
    requires loads != []
    ensures Outcome(loads, r)
  {
    var n := |loads| - 1;
    assert loads[..n] + [loads[n]] == loads;
    if n == 0 {
      TakeNext([], loads[0], false, 0);
      r := 0;
    } else {
      var q := OutcomeExists(loads[..n]);
      TakeNext(loads[..n], loads[n], true, q);
      r := if loads[q] == 0 || loads[n] < loads[q] then n else q;
    }
  }

  lemma {:induction false} SomeOrder(ids: set<string>) returns (order: seq<string>)
    ensures forall i, j :: 0 <= i < j < |order| ==> order[i] != order[j]
    ensures forall id :: id in order <==> id in ids
  {
    if ids == {} {
      order := [];
    } else {
      var id :| id in ids;
      var rest := SomeOrder(ids - {id});
      order := rest + [id];
    }
  }

  ghost predicate AlwaysLeast(online: map<string, int>)
  {
    forall order: seq<string>, r: nat :: Visits(online, order) && Outcome(Loads(online, order), r)
      ==> LeastLoaded(online, order[r])
  }

  /** What a caller can check: whatever the order, a least loaded comet is chosen exactly if some
      load is negative, none is 0, or all are. */
  lemma AnyOrderExactly(online: map<string, int>)
    ensures AlwaysLeast(online)
      <==> (exists id :: id in online && online[id] < 0) || 0 !in online.Values || online.Values == {0}
  {
    hide Outcome, LeastLoaded;
    if (exists id :: id in online && online[id] < 0) || 0 !in online.Values || online.Values == {0} {
      forall order: seq<string>, r: nat | Visits(online, order) && Outcome(Loads(online, order), r)
        ensures LeastLoaded(online, order[r])
      {
        NeverForgotten(online, order);
        LeastExactly(Loads(online, order), r);
        LeastOfLoads(online, order, r);
      }
    } else {
      var idle, busy :| idle in online && online[idle] == 0 && busy in online && online[busy] != 0;
      BusyLast(online, idle, busy);
    }
  }

  lemma NeverForgotten(online: map<string, int>, order: seq<string>)
    requires Visits(online, order)
    requires (exists id :: id in online && online[id] < 0) || 0 !in online.Values || online.Values == {0}
    ensures !ZeroForgotten(Loads(online, order))
  {
    var loads := Loads(online, order);
    forall i | 0 <= i < |loads|
      ensures loads[i] in online.Values
    {
      assert order[i] in order;
    }
    if id :| id in online && online[id] < 0 {
      var i :| 0 <= i < |order| && order[i] == id;
      assert loads[i] < 0;
    }
  }

  /** With no negative load, an idle comet and a busy one visited last: the choice is busy. */
  lemma BusyLast(online: map<string, int>, idle: string, busy: string)
    requires idle in online && online[idle] == 0 && busy in online && online[busy] != 0
    requires forall id :: id in online ==> online[id] >= 0
    ensures !AlwaysLeast(online)
  {
    var rest := SomeOrder(online.Keys - {busy});
    var order := rest + [busy];
    assert Visits(online, order);
    var loads := Loads(online, order);
    assert loads[|loads| - 1] != 0;
    assert idle in order;
    var i :| 0 <= i < |order| && order[i] == idle;
    assert loads[i] == 0;
    assert forall k :: 0 <= k < |order| ==> order[k] in order && loads[k] >= 0;
    assert ZeroForgotten(loads);
    hide Outcome, LeastLoaded, ZeroForgotten, Visits, Loads, GlobalMin;
    var r := OutcomeExists(loads);
    LeastExactly(loads, r);
    LeastOfLoads(online, order, r);
  }

  // ---------- The pool ----------

  /** A comet's count of users, changed if the comet is known. */
  function Counted(online: map<string, int>, id: string, change: int): map<string, int>
  {
    if id in online then online[id := online[id] + change] else online
  }

  lemma CountedTwice(online: map<string, int>, id: string, a: int, b: int)
    ensures Counted(online, id, 0) == online
    ensures Counted(Counted(online, id, a), id, b) == Counted(online, id, a + b)
  {
    assert id in online ==> online[id := online[id]] == online;
  }

  class Pool {
    /** The registered comets, each with its count of users online. */
    var online: map<string, int>

    constructor ()
      ensures online == map[]
    {
      online := map[];
    }

    /** A comet that registers again keeps its count. */
    method InsertComet(id: string)
      modifies this`online
      ensures online.Keys == old(online.Keys) + {id}
      ensures forall c :: c in online ==> online[c] == if c in old(online) then old(online)[c] else 0
    {
      if id !in online {
        online := online[id := 0];
      }
    }

    method DeleteComet(id: string)
      modifies this`online
      ensures online == old(online) - {id}
    {
      online := online - {id};
    }

    method CometAdd(id: string)
      modifies this`online
      ensures online == Counted(old(online), id, 1)
    {
      if id in online {
        online := online[id := online[id] + 1];
      }
    }

    method CometSub(id: string)
      modifies this`online
      ensures online == Counted(old(online), id, -1)
    {
      if id in online {
        online := online[id := online[id] - 1];
      }
    }

    /** Whatever the order, the comet chosen is the one `Outcome` describes, and there is none
        only if the pool is empty. */
    method Balancer(order: seq<string>) returns (c: Option<string>, ghost at: nat)
      requires Visits(online, order)
      ensures c.None? <==> online == map[]
      ensures c.Some? ==> at < |order| && c.value == order[at] && c.value in online
      ensures c.Some? ==> Outcome(Loads(online, order), at)
      ensures c.Some? ==> (LeastLoaded(online, c.value) <==> !ZeroForgotten(Loads(online, order)))
    {
      ghost var loads := Loads(online, order);
      var minLoad := 0;
      c, at := None, 0;
      var k := 0;
      hide Outcome;
      while k < |order|
        invariant k <= |order|
        invariant c.None? <==> k == 0
        invariant c.None? ==> minLoad == 0
        invariant c.Some? ==>
          at < k && c.value == order[at] && minLoad == loads[at] && Outcome(loads[..k], at)
      {
        assert order[k] in order;
        var v := online[order[k]];
        assert loads[..k + 1] == loads[..k] + [v];
        TakeNext(loads[..k], v, c.Some?, at);
        if minLoad == 0 {
          minLoad, c, at := v, Some(order[k]), k;
        }
        if v < minLoad {
          minLoad, c, at := v, Some(order[k]), k;
        }
        k := k + 1;
      }
      assert loads[..k] == loads;
      if c.Some? {
        assert order[at] in order;
        LeastExactly(loads, at);
        LeastOfLoads(online, order, at);
      } else {
        assert forall id :: id in online ==> id in order;
      }
    }
  }
}
