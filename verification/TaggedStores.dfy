/** The stores that keep one record per user, with every terminal's mail in shared lists tagged by
    terminal type (internal/redisstore/redisstore.go, internal/mgostore/mgostore.go). */
module TaggedStores {
  import opened Terminals
  import Rds

  // ---------- Records ----------

  datatype Item = Item(plat: Plat, webOnline: int, msg: string)

  datatype Record = Record(push: Rds.Push, callback: seq<Item>, im: seq<Item>)

  const EMPTY: Record := Record(Rds.Push(0, ""), [], [])

  function RecordOf(db: map<string, Record>, id: string): Record
  {
    if id in db then db[id] else EMPTY
  }

  /** One terminal's entries of a shared list, and the entries of all the others. */
  function Mine(items: seq<Item>, plat: Plat): seq<Item>
  {
    if items == [] then []
    else
      var r, last := Mine(items[..|items| - 1], plat), items[|items| - 1];
      if last.plat == plat then r + [last] else r
  }

  function Others(items: seq<Item>, plat: Plat): seq<Item>
  {
    if items == [] then []
    else
      var r, last := Others(items[..|items| - 1], plat), items[|items| - 1];
      if last.plat == plat then r else r + [last]
  }

  function Bodies(items: seq<Item>): (r: seq<string>)
    ensures |r| == |items|
  {
    seq(|items|, i requires 0 <= i < |items| => items[i].msg)
  }

  /** The loop that sorts a shared list into what is returned and what stays. */
  method Split(items: seq<Item>, plat: Plat) returns (mine: seq<Item>, others: seq<Item>)
    ensures mine == Mine(items, plat) && others == Others(items, plat)
  {
    mine, others := [], [];
    var k := 0;
    while k < |items|
      invariant k <= |items|
      invariant mine == Mine(items[..k], plat) && others == Others(items[..k], plat)
    {
      assert items[..k + 1][..k] == items[..k];
      if items[k].plat == plat {
        mine := mine + [items[k]];
      } else {
        others := others + [items[k]];
      }
      k := k + 1;
    }
    assert items[..k] == items;
  }

  // ---------- Histories ----------

  datatype Op =
    | SavePush(id: string, msg: string)
    | GetPush(id: string)
    | SaveCallback(id: string, plat: Plat, msg: string)
    | GetCallback(id: string, plat: Plat)
    | SaveIm(id: string, plat: Plat, webOnline: int, msg: string)
    | GetIm(id: string, plat: Plat)

  /** What each operation does to the record of its user; a backend trims or not. */
  function Effect(r: Record, op: Op, trims: bool): Record
  {
    match op
    case SavePush(_, msg) => r.(push := Rds.CountPush(r.push, msg))
    case GetPush(_) => r.(push := Rds.Push(0, ""))
    case SaveCallback(_, plat, msg) => r.(callback := r.callback + [Item(plat, 0, msg)])
    case GetCallback(_, plat) => r.(callback := Others(r.callback, plat))
    case SaveIm(_, plat, web, msg) => r.(im := (if trims then Rds.Trim(r.im) else r.im) + [Item(plat, web, msg)])
    case GetIm(_, plat) => r.(im := Others(r.im, plat))
  }

  /** A user's record after a history of either store. */
  function After(ops: seq<Op>, id: string, trims: bool): Record
  {
    if ops == [] then EMPTY
    else
      var r := After(ops[..|ops| - 1], id, trims);
      if ops[|ops| - 1].id == id then Effect(r, ops[|ops| - 1], trims) else r
  }

  /** The records are what a history made of them. */
  ghost predicate Holds(db: map<string, Record>, ops: seq<Op>, trims: bool)
  {
    forall id :: RecordOf(db, id) == After(ops, id, trims)
  }

  lemma Extend(db: map<string, Record>, ops: seq<Op>, op: Op, trims: bool)
    requires Holds(db, ops, trims)
    ensures Holds(db[op.id := Effect(RecordOf(db, op.id), op, trims)], ops + [op], trims)
    ensures Effect(EMPTY, op, trims) == EMPTY && op.id !in db ==> Holds(db, ops + [op], trims)
  {
    hide Effect;
    var next := db[op.id := Effect(RecordOf(db, op.id), op, trims)];
    assert (ops + [op])[..|ops|] == ops;
    forall id
      ensures RecordOf(next, id) == After(ops + [op], id, trims)
    {
      assert RecordOf(db, id) == After(ops, id, trims);
    }
    if Effect(EMPTY, op, trims) == EMPTY && op.id !in db {
      forall id
        ensures RecordOf(db, id) == After(ops + [op], id, trims)
      {
        assert RecordOf(db, id) == After(ops, id, trims);
      }
    }
  }

  // ---------- Each terminal has a queue of its own ----------

  /** The callbacks saved for one terminal since they were last fetched: an independent
      first-in first-out queue. */
  function CallbackQueue(ops: seq<Op>, id: string, plat: Plat): seq<string>
  {
    if ops == [] then []
    else
      var q, op := CallbackQueue(ops[..|ops| - 1], id, plat), ops[|ops| - 1];
      if op.SaveCallback? && op.id == id && op.plat == plat then q + [op.msg]
      else if op == GetCallback(id, plat) then []
      else q
  }

  /** The instant messages saved for one terminal since they were last fetched, each with its
      web-online flag. */
  function ImQueue(ops: seq<Op>, id: string, plat: Plat): seq<Item>
  {
    if ops == [] then []
    else
      var q, op := ImQueue(ops[..|ops| - 1], id, plat), ops[|ops| - 1];
      if op.SaveIm? && op.id == id && op.plat == plat then q + [Item(plat, op.webOnline, op.msg)]
      else if op == GetIm(id, plat) then []
      else q
  }

  lemma {:induction false} TakingMine(items: seq<Item>, plat: Plat, q: Plat)
    ensures Mine(Others(items, plat), q) == if q == plat then [] else Mine(items, q)
  {
    if items != [] {
      var init, last := items[..|items| - 1], items[|items| - 1];
      TakingMine(init, plat, q);
      AddingMine(Others(init, plat), last, q);
    }
  }

  lemma AddingMine(items: seq<Item>, it: Item, q: Plat)
    ensures Mine(items + [it], q) == if it.plat == q then Mine(items, q) + [it] else Mine(items, q)
  {
    assert (items + [it])[..|items|] == items;
  }

  lemma BodiesAppend(items: seq<Item>, it: Item)
    ensures Bodies(items + [it]) == Bodies(items) + [it.msg]
  {
  }

  /** What saving to or taking from a shared list does to one terminal's share. */
  lemma ShareAfterSave(items: seq<Item>, it: Item, plat: Plat)
    ensures Bodies(Mine(items + [it], plat))
         == if it.plat == plat then Bodies(Mine(items, plat)) + [it.msg] else Bodies(Mine(items, plat))
  {
    AddingMine(items, it, plat);
    BodiesAppend(Mine(items, plat), it);
    hide Mine, Bodies;
  }

  lemma ShareAfterTake(items: seq<Item>, p: Plat, plat: Plat)
    ensures Bodies(Mine(Others(items, p), plat)) == if p == plat then [] else Bodies(Mine(items, plat))
  {
    TakingMine(items, p, plat);
  }

  lemma CallbackStep(r: Record, op: Op, plat: Plat, trims: bool)
    ensures Bodies(Mine(Effect(r, op, trims).callback, plat)) ==
      if op.SaveCallback? && op.plat == plat then Bodies(Mine(r.callback, plat)) + [op.msg]
      else if op.GetCallback? && op.plat == plat then []
      else Bodies(Mine(r.callback, plat))
  {
    if op.SaveCallback? {
      ShareAfterSave(r.callback, Item(op.plat, 0, op.msg), plat);
    } else if op.GetCallback? {
      ShareAfterTake(r.callback, op.plat, plat);
    }
    hide Mine, Others, Bodies;
  }

  lemma ImStep(r: Record, op: Op, plat: Plat)
    ensures Mine(Effect(r, op, false).im, plat) ==
      if op.SaveIm? && op.plat == plat then Mine(r.im, plat) + [Item(plat, op.webOnline, op.msg)]
      else if op.GetIm? && op.plat == plat then []
      else Mine(r.im, plat)
  {
    if op.SaveIm? {
      AddingMine(r.im, Item(op.plat, op.webOnline, op.msg), plat);
    } else if op.GetIm? {
      TakingMine(r.im, op.plat, plat);
    }
    hide Mine, Others;
  }

  /** What `GetCallbackMsg` would return after any history, in either store. */
  lemma {:induction false} CallbacksAreQueues(ops: seq<Op>, id: string, plat: Plat, trims: bool)
    ensures Bodies(Mine(After(ops, id, trims).callback, plat)) == CallbackQueue(ops, id, plat)
  {
    if ops != [] {
      var init := ops[..|ops| - 1];
      CallbacksAreQueues(init, id, plat, trims);
      CallbackStep(After(init, id, trims), ops[|ops| - 1], plat, trims);
      hide Mine, Others, Bodies, Effect;
    }
  }

  /** The store that never trims keeps instant messages in such queues too. */
  lemma {:induction false} ImsAreQueues(ops: seq<Op>, id: string, plat: Plat)
    ensures Mine(After(ops, id, false).im, plat) == ImQueue(ops, id, plat)
  {
    if ops != [] {
      var init := ops[..|ops| - 1];
      ImsAreQueues(init, id, plat);
      ImStep(After(init, id, false), ops[|ops| - 1], plat);
      hide Mine, Others, Bodies, Effect;
    }
  }

  /** The pushes saved for a user since they were last fetched. */
  function PushesSince(ops: seq<Op>, id: string): seq<string>
  {
    if ops == [] then []
    else
      var q, op := PushesSince(ops[..|ops| - 1], id), ops[|ops| - 1];
      if op.SavePush? && op.id == id then q + [op.msg] else if op == GetPush(id) then [] else q
  }

  /** What `GetPushMsg` would return after any history: how many pushes came since the last
      fetch, in 16 bits, and the last of them. */
  lemma {:induction false} PushesAreCounted(ops: seq<Op>, id: string, trims: bool)
    ensures var q := PushesSince(ops, id);
      After(ops, id, trims).push == Rds.Push(|q| % 0x1_0000, if q == [] then "" else q[|q| - 1])
  {
    if ops != [] {
      var init, op := ops[..|ops| - 1], ops[|ops| - 1];
      PushesAreCounted(init, id, trims);
      if op.SavePush? && op.id == id {
        OneMoreCounted(PushesSince(init, id), op.msg);
      }
      hide Others, Rds.CountPush, Rds.Trim;
    }
  }

  lemma OneMoreCounted(q: seq<string>, msg: string)
    ensures Rds.CountPush(Rds.Push(|q| % 0x1_0000, if q == [] then "" else q[|q| - 1]), msg)
         == Rds.Push((|q| + 1) % 0x1_0000, msg)
  {
  }

  // ---------- What trimming does to the queues ----------

  lemma {:induction false} MineConcat(a: seq<Item>, b: seq<Item>, p: Plat)
    ensures Mine(a + b, p) == Mine(a, p) + Mine(b, p)
  {
    if b == [] {
      assert a + b == a;
    } else {
      hide Mine;
      var init, last := b[..|b| - 1], b[|b| - 1];
      MineConcat(a, init, p);
      assert b == init + [last] && a + b == (a + init) + [last];
      AddingMine(init, last, p);
      AddingMine(a + init, last, p);
    }
  }

  /** A trim cuts something off in front, and something behind. */
  lemma TrimParts(im: seq<Item>, p: Plat)
    requires |im| > 50
    ensures Mine(im, p) == Mine(im[..1], p) + Mine(Rds.Trim(im), p) + Mine(im[50..], p)
    ensures p == im[0].plat ==> Mine(im[..1], p) == [im[0]]
  {
    assert im == im[..1] + Rds.Trim(im) + im[50..];
    MineConcat(im[..1] + Rds.Trim(im), im[50..], p);
    MineConcat(im[..1], Rds.Trim(im), p);
    assert im[..1] == [] + [im[0]];
    AddingMine([], im[0], p);
  }

  /** The next message joins its terminal's share. */
  function Joined(share: seq<Item>, it: Item, p: Plat): seq<Item>
  {
    if p == it.plat then share + [it] else share
  }

  /** A save keeps every terminal's share exactly if it meets at most 50 messages in all. */
  lemma TrimKeepsExactly(im: seq<Item>, it: Item)
    ensures (forall p: Plat :: Mine(Rds.Trim(im) + [it], p) == Joined(Mine(im, p), it, p)) <==> |im| <= 50
  {
    if |im| <= 50 {
      forall p: Plat
        ensures Mine(Rds.Trim(im) + [it], p) == Joined(Mine(im, p), it, p)
      {
        AddingMine(im, it, p);
      }
    } else {
      var p := im[0].plat;
      TrimParts(im, p);
      AddingMine(Rds.Trim(im), it, p);
      hide Mine, Rds.Trim;
      assert |Mine(Rds.Trim(im) + [it], p)| < |Joined(Mine(im, p), it, p)|;
    }
  }

  /** No instant message of the user ever meets more than 50 others. */
  predicate NeverFull(ops: seq<Op>, id: string)
  {
    forall i :: 0 <= i < |ops| && ops[i].SaveIm? && ops[i].id == id ==> |After(ops[..i], id, true).im| <= 50
  }

  /** What the store that trims would return is what a queue would. */
  predicate QueueKept(ops: seq<Op>, id: string, plat: Plat)
  {
    Mine(After(ops, id, true).im, plat) == ImQueue(ops, id, plat)
  }

  lemma NeverFullPrefix(ops: seq<Op>, id: string)
    requires NeverFull(ops, id) && ops != []
    ensures var init, op := ops[..|ops| - 1], ops[|ops| - 1];
      NeverFull(init, id) && (op.SaveIm? && op.id == id ==> |After(init, id, true).im| <= 50)
  {
    hide After;
    var init := ops[..|ops| - 1];
    assert forall i :: 0 <= i < |init| ==> init[..i] == ops[..i];
  }

  /** With room left, trimming makes no difference. */
  lemma RoomyStep(r: Record, op: Op, plat: Plat)
    requires op.SaveIm? ==> |r.im| <= 50
    ensures Effect(r, op, true) == Effect(r, op, false)
  {
  }

  lemma {:induction false} NeverFullKeeps(ops: seq<Op>, id: string, plat: Plat)
    requires NeverFull(ops, id)
    ensures QueueKept(ops, id, plat)
  {
    if ops != [] {
      var init, op := ops[..|ops| - 1], ops[|ops| - 1];
      NeverFullPrefix(ops, id);
      NeverFullKeeps(init, id, plat);
      var r := After(init, id, true);
      if op.id == id {
        RoomyStep(r, op, plat);
      }
      ImStep(r, op, plat);
      hide Mine, Others, Bodies, NeverFull, Effect;
    }
  }

  /** A message that meets more than 50 costs the terminal of the oldest its queue. */
  lemma FullBreaks(ops: seq<Op>, op: Op)
    requires op.SaveIm? && |After(ops, op.id, true).im| > 50
    ensures var plat := After(ops, op.id, true).im[0].plat;
      QueueKept(ops, op.id, plat) ==> !QueueKept(ops + [op], op.id, plat)
  {
    var im := After(ops, op.id, true).im;
    var plat, it := im[0].plat, Item(op.plat, op.webOnline, op.msg);
    assert (ops + [op])[..|ops|] == ops;
    assert After(ops + [op], op.id, true).im == Rds.Trim(im) + [it];
    assert ImQueue(ops + [op], op.id, plat)
      == if op.plat == plat then ImQueue(ops, op.id, plat) + [it] else ImQueue(ops, op.id, plat);
    hide After, ImQueue;
    TrimParts(im, plat);
    AddingMine(Rds.Trim(im), it, plat);
    hide Mine, Rds.Trim;
  }

  /** All along a history every terminal's instant messages are a queue of their own exactly if
      none of them ever met more than 50 in the shared list. */
  lemma QueuesExactly(ops: seq<Op>, id: string)
    ensures (forall i, plat: Plat :: 0 <= i <= |ops| ==> QueueKept(ops[..i], id, plat)) <==> NeverFull(ops, id)
  {
    hide QueueKept, After;
    if NeverFull(ops, id) {
      forall i, plat: Plat | 0 <= i <= |ops|
        ensures QueueKept(ops[..i], id, plat)
      {
        assert forall j :: 0 <= j < i ==> ops[..i][..j] == ops[..j];
        NeverFullKeeps(ops[..i], id, plat);
      }
    } else {
      var i :| 0 <= i < |ops| && ops[i].SaveIm? && ops[i].id == id && |After(ops[..i], id, true).im| > 50;
      FullBreaks(ops[..i], ops[i]);
      assert ops[..i + 1] == ops[..i] + [ops[i]];
    }
  }

  // ---------- Trimming only loses messages ----------

  /** `a` is what is left of `b` after dropping some elements. */
  predicate Within(a: seq<Item>, b: seq<Item>)
  {
    a == [] ||
    (b != [] &&
     ((a[|a| - 1] == b[|b| - 1] && Within(a[..|a| - 1], b[..|b| - 1])) || Within(a, b[..|b| - 1])))
  }

  lemma {:induction false} WithinItself(a: seq<Item>)
    ensures Within(a, a)
  {
    if a != [] {
      WithinItself(a[..|a| - 1]);
    }
  }

  lemma WithinAppend(a: seq<Item>, b: seq<Item>, x: Item)
    requires Within(a, b)
    ensures Within(a, b + [x]) && Within(a + [x], b + [x])
  {
    assert (a + [x])[..|a|] == a && (b + [x])[..|b|] == b;
  }

  lemma {:induction false} WithinPrefix(a: seq<Item>, b: seq<Item>, c: seq<Item>)
    requires Within(a, b)
    ensures Within(a, b + c)
  {
    if c == [] {
      assert b + c == b;
    } else {
      WithinPrefix(a, b, c[..|c| - 1]);
      WithinAppend(a, b + c[..|c| - 1], c[|c| - 1]);
      assert b + c == b + c[..|c| - 1] + [c[|c| - 1]];
    }
  }

  lemma {:induction false} WithinSuffix(a: seq<Item>, b: seq<Item>)
    ensures Within(b, a + b)
  {
    if b != [] {
      hide Within;
      var init, last := b[..|b| - 1], b[|b| - 1];
      WithinSuffix(a, init);
      WithinAppend(init, a + init, last);
      assert a + b == a + init + [last] && b == init + [last];
    }
  }

  lemma {:induction false} WithinTrans(a: seq<Item>, b: seq<Item>, c: seq<Item>)
    requires Within(a, b) && Within(b, c)
    ensures Within(a, c)
    decreases |b| + |c|
  {
    if a != [] {
      var c' := c[..|c| - 1];
      if b[|b| - 1] == c[|c| - 1] && Within(b[..|b| - 1], c') {
        if a[|a| - 1] == b[|b| - 1] && Within(a[..|a| - 1], b[..|b| - 1]) {
          WithinTrans(a[..|a| - 1], b[..|b| - 1], c');
        } else {
          WithinTrans(a, b[..|b| - 1], c');
        }
      } else {
        WithinTrans(a, b, c');
      }
    }
  }

  lemma TrimWithin(im: seq<Item>, plat: Plat)
    ensures Within(Mine(Rds.Trim(im), plat), Mine(im, plat))
  {
    if |im| <= 50 {
      WithinItself(Mine(im, plat));
    } else {
      TrimParts(im, plat);
      hide *;
      var a, b, c := Mine(im[..1], plat), Mine(Rds.Trim(im), plat), Mine(im[50..], plat);
      WithinSuffix(a, b);
      WithinPrefix(b, a + b, c);
    }
  }

  lemma ImStepWithin(r: Record, op: Op, plat: Plat, queue: seq<Item>)
    requires op.SaveIm? && Within(Mine(r.im, plat), queue)
    ensures var it := Item(op.plat, op.webOnline, op.msg);
      Within(Mine(Effect(r, op, true).im, plat), if op.plat == plat then queue + [it] else queue)
  {
    var it := Item(op.plat, op.webOnline, op.msg);
    assert Effect(r, op, true).im == Rds.Trim(r.im) + [it];
    TrimWithin(r.im, plat);
    AddingMine(Rds.Trim(r.im), it, plat);
    hide *;
    WithinTrans(Mine(Rds.Trim(r.im), plat), Mine(r.im, plat), queue);
    if op.plat == plat {
      WithinAppend(Mine(Rds.Trim(r.im), plat), queue, it);
    }
  }

  /** After any history the store that trims holds, for each terminal, some of the messages of
      its queue, in order, and nothing else. */
  lemma {:induction false} ImsWithinQueues(ops: seq<Op>, id: string, plat: Plat)
    ensures Within(Mine(After(ops, id, true).im, plat), ImQueue(ops, id, plat))
  {
    if ops != [] {
      var init, op := ops[..|ops| - 1], ops[|ops| - 1];
      ImsWithinQueues(init, id, plat);
      var r := After(init, id, true);
      if op.SaveIm? && op.id == id {
        ImStepWithin(r, op, plat, ImQueue(init, id, plat));
      } else {
        ImStep(r, op, plat);
      }
      hide Mine, Others, Rds.Trim;
    }
  }

  // ---------- A history that loses a message ----------

  /** One message for terminal `p`, then `n` for terminal `q`. */
  function OneThenMany(id: string, p: Plat, q: Plat, msg: string, n: nat): seq<Op>
  {
    if n == 0 then [SaveIm(id, p, 0, msg)] else OneThenMany(id, p, q, msg, n - 1) + [SaveIm(id, q, 0, msg)]
  }

  lemma OneSaved(id: string, p: Plat, msg: string)
    ensures var ops := [SaveIm(id, p, 0, msg)];
      After(ops, id, true).im == [Item(p, 0, msg)] && ImQueue(ops, id, p) == [Item(p, 0, msg)]
  {
    assert [SaveIm(id, p, 0, msg)][..0] == [];
  }

  lemma OneMoreSaved(ops: seq<Op>, id: string, p: Plat, q: Plat, msg: string)
    requires p != q
    ensures var more := ops + [SaveIm(id, q, 0, msg)];
      && After(more, id, true).im == Rds.Trim(After(ops, id, true).im) + [Item(q, 0, msg)]
      && ImQueue(more, id, p) == ImQueue(ops, id, p)
  {
    assert (ops + [SaveIm(id, q, 0, msg)])[..|ops|] == ops;
    hide Rds.Trim;
  }

  lemma {:induction false} OneThenManyHeld(id: string, p: Plat, q: Plat, msg: string, n: nat)
    requires p != q && n <= 50
    ensures var ops := OneThenMany(id, p, q, msg, n); var im := After(ops, id, true).im;
      && |im| == n + 1 && im[0] == Item(p, 0, msg) && (forall i :: 0 < i <= n ==> im[i].plat == q)
      && ImQueue(ops, id, p) == [Item(p, 0, msg)]
  {
    hide After, ImQueue;
    if n == 0 {
      OneSaved(id, p, msg);
    } else {
      OneThenManyHeld(id, p, q, msg, n - 1);
      OneMoreSaved(OneThenMany(id, p, q, msg, n - 1), id, p, q, msg);
      assert OneThenMany(id, p, q, msg, n) == OneThenMany(id, p, q, msg, n - 1) + [SaveIm(id, q, 0, msg)];
    }
  }

  lemma {:induction false} NoneMine(items: seq<Item>, plat: Plat)
    requires forall i :: 0 <= i < |items| ==> items[i].plat != plat
    ensures Mine(items, plat) == []
  {
    if items != [] {
      NoneMine(items[..|items| - 1], plat);
    }
  }

  /** Behind the first of 51 messages there are only the second terminal's, and trimming takes
      away the first. */
  lemma FirstTrimmed(im: seq<Item>, p: Plat, q: Plat, last: Item)
    requires p != q && |im| == 51 && last.plat == q && forall i :: 0 < i <= 50 ==> im[i].plat == q
    ensures Mine(Rds.Trim(im) + [last], p) == []
  {
    var items := Rds.Trim(im) + [last];
    assert |items| == 50;
    forall i | 0 <= i < 50
      ensures items[i].plat != p
    {
      assert items[i] == if i < 49 then im[i + 1] else last;
    }
    NoneMine(items, p);
  }

  /** 51 messages for one terminal push out another terminal's only one. */
  lemma TrimmingMixesTerminals(id: string, p: Plat, q: Plat, msg: string)
    requires p != q
    ensures var ops := OneThenMany(id, p, q, msg, 51);
      ImQueue(ops, id, p) == [Item(p, 0, msg)] && Mine(After(ops, id, true).im, p) == []
  {
    var ops := OneThenMany(id, p, q, msg, 50);
    OneThenManyHeld(id, p, q, msg, 50);
    OneMoreSaved(ops, id, p, q, msg);
    hide After, ImQueue, Mine, Rds.Trim;
    FirstTrimmed(After(ops, id, true).im, p, q, Item(q, 0, msg));
  }

  // ---------- The two stores ----------

  class RedisStore {
    var db: map<string, Record>
    /** Everything the store was asked to do. */
    ghost var ops: seq<Op>

    ghost predicate Valid()
      reads this
    {
      Holds(db, ops, true)
    }

    constructor ()
      ensures Valid() && ops == []
    {
      db, ops := map[], [];
    }

    method SavePushMsg(id: string, msg: string)
      requires Valid()
      modifies this
      ensures Valid() && ops == old(ops) + [SavePush(id, msg)]
    {
      Extend(db, ops, SavePush(id, msg), true);
      ops := ops + [SavePush(id, msg)];
      var omsg := RecordOf(db, id);
      db := db[id := omsg.(push := Rds.Push((omsg.push.offCnt + 1) % 0x1_0000, msg))];
    }

    /** The search for a duplicate only leaves its own loop: the callback is always added. */
    method SaveCallbackMsg(id: string, plat: Plat, msg: string)
      requires Valid()
      modifies this
      ensures Valid() && ops == old(ops) + [SaveCallback(id, plat, msg)]
    {
      Extend(db, ops, SaveCallback(id, plat, msg), true);
      ops := ops + [SaveCallback(id, plat, msg)];
      var omsg := RecordOf(db, id);
      if id in db {
        var k := 0;
        while k < |omsg.callback| {
          if omsg.callback[k].msg == msg {
            break;
          }
          k := k + 1;
        }
      }
      db := db[id := omsg.(callback := omsg.callback + [Item(plat, 0, msg)])];
    }

    method SaveImMsg(id: string, plat: Plat, webOnline: int, msg: string)
      requires Valid()
      modifies this
      ensures Valid() && ops == old(ops) + [SaveIm(id, plat, webOnline, msg)]
    {
      Extend(db, ops, SaveIm(id, plat, webOnline, msg), true);
      ops := ops + [SaveIm(id, plat, webOnline, msg)];
      var omsg := RecordOf(db, id);
      if |omsg.im| > 50 {
        omsg := omsg.(im := omsg.im[1..50]);
      }
      db := db[id := omsg.(im := omsg.im + [Item(plat, webOnline, msg)])];
    }

    /** The number of pushes since the last fetch, in 16 bits, and the last of them. */
    method GetPushMsg(id: string) returns (offCount: nat, buff: string)
      requires Valid()
      modifies this
      ensures Valid() && ops == old(ops) + [GetPush(id)]
      ensures var q := PushesSince(old(ops), id);
        offCount == |q| % 0x1_0000 && buff == if q == [] then "" else q[|q| - 1]
    {
      PushesAreCounted(ops, id, true);
      Extend(db, ops, GetPush(id), true);
      ops := ops + [GetPush(id)];
      if id !in db {
        return 0, "";
      }
      offCount, buff := db[id].push.offCnt, db[id].push.msg;
      db := db[id := db[id].(push := Rds.Push(0, ""))];
    }

    /** The callbacks of this terminal since its last fetch, oldest first. */
    method GetCallbackMsg(id: string, plat: Plat) returns (buff: seq<string>)
      requires Valid()
      modifies this
      ensures Valid() && ops == old(ops) + [GetCallback(id, plat)]
      ensures buff == CallbackQueue(old(ops), id, plat)
    {
      CallbacksAreQueues(ops, id, plat, true);
      Extend(db, ops, GetCallback(id, plat), true);
      ops := ops + [GetCallback(id, plat)];
      if id !in db {
        return [];
      }
      var mine, newItem := Split(db[id].callback, plat);
      buff := Bodies(mine);
      db := db[id := db[id].(callback := newItem)];
    }

    /** Some of the terminal's queue, in order; all of it if no message ever met a full list. */
    method GetImMsg(id: string, plat: Plat) returns (rItem: seq<Item>)
      requires Valid()
      modifies this
      ensures Valid() && ops == old(ops) + [GetIm(id, plat)]
      ensures rItem == Mine(After(old(ops), id, true).im, plat)
      ensures Within(rItem, ImQueue(old(ops), id, plat))
      ensures NeverFull(old(ops), id) ==> rItem == ImQueue(old(ops), id, plat)
    {
      ImsWithinQueues(ops, id, plat);
      if NeverFull(ops, id) {
        NeverFullKeeps(ops, id, plat);
      }
      hide NeverFull, Within;
      Extend(db, ops, GetIm(id, plat), true);
      ops := ops + [GetIm(id, plat)];
      if id !in db {
        return [];
      }
      var newItem;
      rItem, newItem := Split(db[id].im, plat);
      db := db[id := db[id].(im := newItem)];
    }
  }

  /** Here a user asked for is a user made, and nothing is trimmed. */
  class MongoStore {
    var db: map<string, Record>
    /** Everything the store was asked to do. */
    ghost var ops: seq<Op>

    ghost predicate Valid()
      reads this
    {
      Holds(db, ops, false)
    }

    constructor ()
      ensures Valid() && ops == []
    {
      db, ops := map[], [];
    }

    method GetMsg(id: string) returns (m: Record)
      requires Valid()
      modifies this`db
      ensures Valid() && m == RecordOf(old(db), id) && db == old(db)[id := m]
    {
      if id in db {
        m := db[id];
        assert db == db[id := m];
      } else {
        m := EMPTY;
        db := db[id := m];
      }
    }

    method SavePushMsg(id: string, msg: string)
      requires Valid()
      modifies this
      ensures Valid() && ops == old(ops) + [SavePush(id, msg)]
    {
      var m := GetMsg(id);
      Extend(db, ops, SavePush(id, msg), false);
      ops := ops + [SavePush(id, msg)];
      db := db[id := m.(push := Rds.Push((m.push.offCnt + 1) % 0x1_0000, msg))];
    }

    method SaveCallbackMsg(id: string, plat: Plat, msg: string)
      requires Valid()
      modifies this
      ensures Valid() && ops == old(ops) + [SaveCallback(id, plat, msg)]
    {
      var m := GetMsg(id);
      Extend(db, ops, SaveCallback(id, plat, msg), false);
      ops := ops + [SaveCallback(id, plat, msg)];
      db := db[id := m.(callback := m.callback + [Item(plat, 0, msg)])];
    }

    method SaveImMsg(id: string, plat: Plat, msg: string)
      requires Valid()
      modifies this
      ensures Valid() && ops == old(ops) + [SaveIm(id, plat, 0, msg)]
    {
      var m := GetMsg(id);
      Extend(db, ops, SaveIm(id, plat, 0, msg), false);
      ops := ops + [SaveIm(id, plat, 0, msg)];
      db := db[id := m.(im := m.im + [Item(plat, 0, msg)])];
    }

    /** The number of pushes since the last fetch, in 16 bits, and the last of them. */
    method GetPushMsg(id: string) returns (offCount: nat, msg: string)
      requires Valid()
      modifies this
      ensures Valid() && ops == old(ops) + [GetPush(id)]
      ensures var q := PushesSince(old(ops), id);
        offCount == |q| % 0x1_0000 && msg == if q == [] then "" else q[|q| - 1]
    {
      PushesAreCounted(ops, id, false);
      var m := GetMsg(id);
      Extend(db, ops, GetPush(id), false);
      ops := ops + [GetPush(id)];
      offCount, msg := m.push.offCnt, m.push.msg;
      db := db[id := m.(push := Rds.Push(0, ""))];
    }

    /** The callbacks of this terminal since its last fetch, oldest first. */
    method GetCallbackMsg(id: string, plat: Plat) returns (buff: seq<string>)
      requires Valid()
      modifies this
      ensures Valid() && ops == old(ops) + [GetCallback(id, plat)]
      ensures buff == CallbackQueue(old(ops), id, plat)
    {
      CallbacksAreQueues(ops, id, plat, false);
      var m := GetMsg(id);
      Extend(db, ops, GetCallback(id, plat), false);
      ops := ops + [GetCallback(id, plat)];
      var mine, newItem := Split(m.callback, plat);
      buff := Bodies(mine);
      db := db[id := m.(callback := newItem)];
    }

    /** The instant messages of this terminal since its last fetch, oldest first. */
    method GetImMsg(id: string, plat: Plat) returns (buff: seq<string>)
      requires Valid()
      modifies this
      ensures Valid() && ops == old(ops) + [GetIm(id, plat)]
      ensures buff == Bodies(ImQueue(old(ops), id, plat))
    {
      ImsAreQueues(ops, id, plat);
      var m := GetMsg(id);
      Extend(db, ops, GetIm(id, plat), false);
      ops := ops + [GetIm(id, plat)];
      var mine, newItem := Split(m.im, plat);
      buff := Bodies(mine);
      db := db[id := m.(im := newItem)];
    }
  }
}
