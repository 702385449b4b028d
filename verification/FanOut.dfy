/** Fan-out of a downward message: which terminals it reaches, and what happens to each
    (router/procNsq.go, the push, callback and message topics). */
module FanOut {
  import opened Prelude
  import opened Terminals
  import opened Rds

  datatype Receiver = Receiver(uid: string, termtype: int)

  /** Each terminal addressed is pushed to, handed to the offline store, or, if it is a web
      terminal whose comet refused, dropped. */
  datatype Fate = Pushed | HandedOffline | DroppedWeb

  datatype Entry = Entry(receiver: nat, item: nat, id: string, plat: Plat, fate: Fate)

  /** Success of the push to item `j` of receiver `r`. */
  type Oracle = (nat, nat) -> bool

  /** The type number under which a topic's messages are pushed and saved; 0 for any other. */
  function TypeOf(topic: string): nat
  {
    if topic == "push" then MSGTYPE_PUSH
    else if topic == "callback" then MSGTYPE_CALLBACK
    else if topic == "msgDownward" then MSGTYPE_MESSAGE
    else 0
  }

  function KindOf(topic: string): Option<Kind>
  {
    KindOfType(TypeOf(topic))
  }

  function FateOf(plat: Plat, up: bool, ok: bool): Fate
  {
    if !up then HandedOffline
    else if ok then Pushed
    else if plat != PLAT_WEB then HandedOffline
    else DroppedWeb
  }

  function ItemEntry(t: Terminal, r: nat, j: nat, up: bool, ok: Oracle): Entry
  {
    Entry(r, j, t.id, t.plat, FateOf(t.plat, up, ok(r, j)))
  }

  /** What happens to the first `j` terminals of a list. */
  function ItemEntries(ts: seq<Terminal>, r: nat, mask: int, up: bool, ok: Oracle, j: nat): seq<Entry>
    requires j <= |ts|
  {
    if j == 0 then []
    else
      var here := if InMask(ts[j - 1].plat, mask) then [ItemEntry(ts[j - 1], r, j - 1, up, ok)] else [];
      ItemEntries(ts, r, mask, up, ok, j - 1) + here
  }

  function ReceiverEntries(v: map<string, User>, comets: set<string>, to: Receiver, r: nat, ok: Oracle): seq<Entry>
  {
    if to.uid in v then
      ItemEntries(v[to.uid].sess, r, to.termtype, v[to.uid].cometId in comets, ok, |v[to.uid].sess|)
    else []
  }

  /** What happens for the first `k` receivers. */
  function Entries(v: map<string, User>, comets: set<string>, rs: seq<Receiver>, ok: Oracle, k: nat): seq<Entry>
    requires k <= |rs|
  {
    if k == 0 then [] else Entries(v, comets, rs, ok, k - 1) + ReceiverEntries(v, comets, rs[k - 1], k - 1, ok)
  }

  /** The users after every entry handed to the store was saved; a topic that names no kind
      of message saves nothing. */
  function SaveAll(v: map<string, User>, kind: Option<Kind>, body: string, log: seq<Entry>): map<string, User>
  {
    if log == [] then v
    else
      var w := SaveAll(v, kind, body, log[..|log| - 1]);
      var e := log[|log| - 1];
      if e.fate.HandedOffline? then SaveOne(w, kind, e.id, e.plat, body) else w
  }

  function SaveOne(v: map<string, User>, kind: Option<Kind>, id: string, plat: Plat, body: string): map<string, User>
  {
    if kind.Some? then Saved(v, id, plat, kind.value, body) else v
  }

  lemma SaveAllEmpty(v: map<string, User>, kind: Option<Kind>, body: string)
    ensures SaveAll(v, kind, body, []) == v
  {
  }

  lemma SaveAllAppend(v: map<string, User>, kind: Option<Kind>, body: string, log: seq<Entry>, e: Entry)
    ensures SaveAll(v, kind, body, log + [e])
         == if e.fate.HandedOffline? then SaveOne(SaveAll(v, kind, body, log), kind, e.id, e.plat, body)
            else SaveAll(v, kind, body, log)
  {
    assert (log + [e])[..|log|] == log;
  }

  // ---------- Exactly once ----------

  predicate Addressed(v: map<string, User>, rs: seq<Receiver>, r: nat, j: nat)
  {
    && r < |rs| && rs[r].uid in v && j < |v[rs[r].uid].sess|
    && InMask(v[rs[r].uid].sess[j].plat, rs[r].termtype)
  }

  lemma {:induction false} ItemEntriesExact(ts: seq<Terminal>, r: nat, mask: int, up: bool, ok: Oracle, j: nat)
    requires j <= |ts|
    ensures forall e :: e in ItemEntries(ts, r, mask, up, ok, j) <==>
      e.item < j && InMask(ts[e.item].plat, mask) && e == ItemEntry(ts[e.item], r, e.item, up, ok)
    ensures forall a, b :: 0 <= a < b < |ItemEntries(ts, r, mask, up, ok, j)| ==>
      ItemEntries(ts, r, mask, up, ok, j)[a].item < ItemEntries(ts, r, mask, up, ok, j)[b].item
  {
    if j > 0 {
      ItemEntriesExact(ts, r, mask, up, ok, j - 1);
    }
  }

  /** The entry that an addressed terminal should have. */
  predicate Expected(v: map<string, User>, comets: set<string>, rs: seq<Receiver>, ok: Oracle, e: Entry)
  {
    && Addressed(v, rs, e.receiver, e.item)
    && var u := v[rs[e.receiver].uid];
       e == ItemEntry(u.sess[e.item], e.receiver, e.item, u.cometId in comets, ok)
  }

  predicate Before(a: Entry, b: Entry)
  {
    a.receiver < b.receiver || (a.receiver == b.receiver && a.item < b.item)
  }

  predicate InOrder(log: seq<Entry>)
  {
    forall a, b :: 0 <= a < b < |log| ==> Before(log[a], log[b])
  }

  lemma ReceiverEntriesExact(v: map<string, User>, comets: set<string>, rs: seq<Receiver>, r: nat, ok: Oracle)
    requires r < |rs|
    ensures forall e ::
      e in ReceiverEntries(v, comets, rs[r], r, ok) <==> e.receiver == r && Expected(v, comets, rs, ok, e)
    ensures InOrder(ReceiverEntries(v, comets, rs[r], r, ok))
  {
    var to := rs[r];
    if to.uid in v {
      ItemEntriesExact(v[to.uid].sess, r, to.termtype, v[to.uid].cometId in comets, ok, |v[to.uid].sess|);
      forall a, b | 0 <= a < b < |ReceiverEntries(v, comets, to, r, ok)|
        ensures Before(ReceiverEntries(v, comets, to, r, ok)[a], ReceiverEntries(v, comets, to, r, ok)[b])
      {
        assert ReceiverEntries(v, comets, to, r, ok)[a] in ReceiverEntries(v, comets, to, r, ok);
        assert ReceiverEntries(v, comets, to, r, ok)[b] in ReceiverEntries(v, comets, to, r, ok);
      }
    }
  }

  lemma JoinInOrder(a: seq<Entry>, b: seq<Entry>, k: nat)
    requires InOrder(a) && InOrder(b)
    requires forall e :: e in a ==> e.receiver < k
    requires forall e :: e in b ==> e.receiver == k
    ensures InOrder(a + b)
  {
    forall i, j | 0 <= i < j < |a + b|
      ensures Before((a + b)[i], (a + b)[j])
    {
      if i < |a| <= j {
        assert a[i] in a && b[j - |a|] in b;
      }
    }
  }

  /** The log has one entry for each addressed terminal, in order, and no other entry. */
  lemma {:induction false} FanOutExact(v: map<string, User>, comets: set<string>, rs: seq<Receiver>, ok: Oracle, k: nat)
    requires k <= |rs|
    ensures forall e :: e in Entries(v, comets, rs, ok, k) <==> e.receiver < k && Expected(v, comets, rs, ok, e)
    ensures InOrder(Entries(v, comets, rs, ok, k))
  {
    if k > 0 {
      var init, last := Entries(v, comets, rs, ok, k - 1), ReceiverEntries(v, comets, rs[k - 1], k - 1, ok);
      FanOutExact(v, comets, rs, ok, k - 1);
      ReceiverEntriesExact(v, comets, rs, k - 1, ok);
      hide Expected, InOrder, ReceiverEntries;
      JoinInOrder(init, last, k - 1);
      assert Entries(v, comets, rs, ok, k) == init + last;
    } else {
      assert Entries(v, comets, rs, ok, k) == [];
    }
  }

  /** Conservation: the fates of an addressed terminal are exclusive and exhaustive; it is
      dropped exactly when it is a web terminal and its known comet refused. */
  lemma FanOutConserves(v: map<string, User>, comets: set<string>, rs: seq<Receiver>, ok: Oracle, r: nat, j: nat)
    requires Addressed(v, rs, r, j)
    ensures var u := v[rs[r].uid];
      var t, log := u.sess[j], Entries(v, comets, rs, ok, |rs|);
      && (exists e :: e in log && e.receiver == r && e.item == j)
      && forall e :: e in log && e.receiver == r && e.item == j ==>
        && e.id == t.id && e.plat == t.plat
        && (e.fate == DroppedWeb <==> t.plat == PLAT_WEB && u.cometId in comets && !ok(r, j))
        && (e.fate == Pushed <==> u.cometId in comets && ok(r, j))
  {
    FanOutExact(v, comets, rs, ok, |rs|);
    var u := v[rs[r].uid];
    var e := ItemEntry(u.sess[j], r, j, u.cometId in comets, ok);
    assert Expected(v, comets, rs, ok, e);
    assert e in Entries(v, comets, rs, ok, |rs|);
  }

  // ---------- Saving mail does not disturb the fan-out ----------

  /** The same users, comets and terminals; mail may differ. */
  predicate SameShape(v: map<string, User>, w: map<string, User>)
  {
    v.Keys == w.Keys && forall u :: u in v ==> SameUserShape(v[u], w[u])
  }

  predicate SameUserShape(a: User, b: User)
  {
    && a.id == b.id && a.cometId == b.cometId && |a.sess| == |b.sess|
    && forall i :: 0 <= i < |a.sess| ==> b.sess[i] == a.sess[i].(off := b.sess[i].off)
  }

  lemma SaveOneShape(v: map<string, User>, kind: Option<Kind>, id: string, plat: Plat, body: string)
    ensures SameShape(v, SaveOne(v, kind, id, plat, body))
  {
    if kind.Some? {
      SavedShape(v, id, plat, kind.value, body);
    }
    hide Saved;
  }

  lemma SavedShape(v: map<string, User>, id: string, plat: Plat, kind: Kind, body: string)
    ensures SameShape(v, Saved(v, id, plat, kind, body))
  {
    if id in v {
      SaveMailShape(v[id], plat, kind, body);
    }
    hide SaveMail;
  }

  lemma DrainedShape(v: map<string, User>, id: string, plat: Plat, kind: Kind)
    ensures SameShape(v, Drained(v, id, plat, kind))
  {
    hide TakeMail;
  }

  lemma SaveMailShape(u: User, plat: Plat, kind: Kind, body: string)
    ensures SameUserShape(u, SaveMail(u, plat, kind, body))
  {
    hide AddMail;
  }

  lemma {:induction false} SaveAllShape(v: map<string, User>, kind: Option<Kind>, body: string, log: seq<Entry>)
    ensures SameShape(v, SaveAll(v, kind, body, log))
  {
    if log != [] {
      var init, e := log[..|log| - 1], log[|log| - 1];
      SaveAllShape(v, kind, body, init);
      SaveOneShape(SaveAll(v, kind, body, init), kind, e.id, e.plat, body);
    }
  }

  lemma {:induction false} SameItemEntries(ts: seq<Terminal>, us: seq<Terminal>, r: nat, mask: int, up: bool,
                                           ok: Oracle, j: nat)
    requires j <= |ts| == |us| && forall i :: 0 <= i < |ts| ==> us[i].id == ts[i].id && us[i].plat == ts[i].plat
    ensures ItemEntries(us, r, mask, up, ok, j) == ItemEntries(ts, r, mask, up, ok, j)
  {
    if j > 0 {
      SameItemEntries(ts, us, r, mask, up, ok, j - 1);
    }
  }

  lemma SameReceiverEntries(v: map<string, User>, w: map<string, User>, comets: set<string>, to: Receiver, r: nat,
                            ok: Oracle)
    requires SameShape(v, w)
    ensures ReceiverEntries(v, comets, to, r, ok) == ReceiverEntries(w, comets, to, r, ok)
  {
    if to.uid in v {
      var a, b := v[to.uid], w[to.uid];
      assert SameUserShape(a, b);
      SameItemEntries(a.sess, b.sess, r, to.termtype, a.cometId in comets, ok, |a.sess|);
    }
  }

  lemma {:induction false} SaveAllConcat(v: map<string, User>, kind: Option<Kind>, body: string,
                                         a: seq<Entry>, b: seq<Entry>)
    ensures SaveAll(v, kind, body, a + b) == SaveAll(SaveAll(v, kind, body, a), kind, body, b)
  {
    if b == [] {
      assert a + b == a;
    } else {
      var init := b[..|b| - 1];
      assert (a + b)[..|a + b| - 1] == a + init;
      SaveAllConcat(v, kind, body, a, init);
    }
  }
}
