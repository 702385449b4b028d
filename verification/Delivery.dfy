/** Where a downward message ends up that could not be pushed: what every terminal's mailbox holds
    after the router has handled it (router/procNsq.go, internal/rds/rds.go). */
module Delivery {
  import opened Prelude
  import opened Terminals
  import opened Rds
  import opened FanOut
  import opened Logins
  import opened Mailboxes

  // ---------- How often a terminal's message goes to the store ----------

  /** Position of the user's terminal of this type, if there is one. */
  function At(v: map<string, User>, id: string, plat: Plat): nat
    requires id in v
  {
    First(v[id].sess, plat)
  }

  /** A receiver names the terminal, and the message is neither pushed nor dropped: the user's
      comet is not registered, or it refused and the terminal is not the browser. */
  predicate OwedBy(v: map<string, User>, comets: set<string>, to: Receiver, r: nat, ok: Oracle, id: string, plat: Plat)
  {
    && HasTerminal(v, id, plat) && to.uid == id && to.termtype / plat % 2 == 1
    && (v[id].cometId !in comets || (!ok(r, At(v, id, plat)) && plat != 8))
  }

  /** How many of the first `k` receivers leave the message with the terminal. */
  function Owed(v: map<string, User>, comets: set<string>, rs: seq<Receiver>, ok: Oracle, k: nat,
                id: string, plat: Plat): nat
    requires k <= |rs|
  {
    if k == 0 then 0
    else Owed(v, comets, rs, ok, k - 1, id, plat) + if OwedBy(v, comets, rs[k - 1], k - 1, ok, id, plat) then 1 else 0
  }

  /** How many entries of a log were handed to the store for the terminal. */
  function Handed(log: seq<Entry>, id: string, plat: Plat): nat
  {
    if log == [] then 0
    else
      var e := log[|log| - 1];
      Handed(log[..|log| - 1], id, plat) + if e.fate == HandedOffline && e.id == id && e.plat == plat then 1 else 0
  }

  lemma {:induction false} HandedConcat(a: seq<Entry>, b: seq<Entry>, id: string, plat: Plat)
    ensures Handed(a + b, id, plat) == Handed(a, id, plat) + Handed(b, id, plat)
  {
    if b == [] {
      assert a + b == a;
    } else {
      HandedConcat(a, b[..|b| - 1], id, plat);
      assert (a + b)[..|a + b| - 1] == a + b[..|b| - 1];
    }
  }

  lemma HandedOne(e: Entry, id: string, plat: Plat)
    ensures Handed([e], id, plat) == if e.fate == HandedOffline && e.id == id && e.plat == plat then 1 else 0
  {
    assert [e][..0] == [];
  }

  /** Of one receiver's entries at most one concerns the terminal: that of its place in the list. */
  lemma {:induction false} HandedItems(ts: seq<Terminal>, r: nat, mask: int, up: bool, ok: Oracle, j: nat,
                                       id: string, plat: Plat)
    requires j <= |ts| && WellFormed(ts)
    ensures var i := First(ts, plat);
      Handed(ItemEntries(ts, r, mask, up, ok, j), id, plat)
      == if i < j && ts[i].id == id && mask / plat % 2 == 1 && FateOf(plat, up, ok(r, i)) == HandedOffline then 1 else 0
  {
    if j > 0 {
      HandedItems(ts, r, mask, up, ok, j - 1, id, plat);
      var t := ts[j - 1];
      MaskAddresses(t.plat, mask, {});
      OnlyFirst(ts, plat, j - 1);
      hide WellFormed, First, InMask, FateOf, Handed;
      var init := ItemEntries(ts, r, mask, up, ok, j - 1);
      if InMask(t.plat, mask) {
        HandedConcat(init, [ItemEntry(t, r, j - 1, up, ok)], id, plat);
        HandedOne(ItemEntry(t, r, j - 1, up, ok), id, plat);
      } else {
        assert init + [] == init;
      }
    } else {
      assert ItemEntries(ts, r, mask, up, ok, 0) == [];
    }
  }

  lemma OnlyFirst(ts: seq<Terminal>, plat: Plat, k: nat)
    requires WellFormed(ts) && k < |ts|
    ensures ts[k].plat == plat <==> First(ts, plat) == k
  {
  }

  predicate AllOk(v: map<string, User>)
  {
    forall u :: u in v ==> UserOk(u, v[u]) && WellFormed(v[u].sess)
  }

  lemma HandedReceiver(v: map<string, User>, comets: set<string>, to: Receiver, r: nat, ok: Oracle,
                       id: string, plat: Plat)
    requires AllOk(v)
    ensures Handed(ReceiverEntries(v, comets, to, r, ok), id, plat)
         == if OwedBy(v, comets, to, r, ok, id, plat) then 1 else 0
  {
    if to.uid in v {
      var u := v[to.uid];
      HandedItems(u.sess, r, to.termtype, u.cometId in comets, ok, |u.sess|, id, plat);
      var i := First(u.sess, plat);
      assert i < |u.sess| ==> TerminalOk(to.uid, u.sess[i]);
    }
    hide Handed, ItemEntries, WellFormed, MailOk, First;
  }

  lemma NoReceivers(v: map<string, User>, comets: set<string>, rs: seq<Receiver>, ok: Oracle, id: string, plat: Plat)
    ensures Handed(Entries(v, comets, rs, ok, 0), id, plat) == 0 == Owed(v, comets, rs, ok, 0, id, plat)
  {
  }

  lemma OneReceiverMore(v: map<string, User>, comets: set<string>, rs: seq<Receiver>, ok: Oracle, k: nat,
                        id: string, plat: Plat)
    requires 0 < k <= |rs|
    ensures Entries(v, comets, rs, ok, k)
         == Entries(v, comets, rs, ok, k - 1) + ReceiverEntries(v, comets, rs[k - 1], k - 1, ok)
    ensures Owed(v, comets, rs, ok, k, id, plat)
         == Owed(v, comets, rs, ok, k - 1, id, plat)
            + if OwedBy(v, comets, rs[k - 1], k - 1, ok, id, plat) then 1 else 0
  {
    hide ReceiverEntries, OwedBy;
  }

  /** The log hands a terminal's message to the store once for every receiver that leaves it there. */
  lemma {:induction false} HandedIsOwed(v: map<string, User>, comets: set<string>, rs: seq<Receiver>, ok: Oracle,
                                        k: nat, id: string, plat: Plat)
    requires k <= |rs| && AllOk(v)
    ensures Handed(Entries(v, comets, rs, ok, k), id, plat) == Owed(v, comets, rs, ok, k, id, plat)
  {
    hide *;
    if k == 0 {
      NoReceivers(v, comets, rs, ok, id, plat);
    } else {
      HandedIsOwed(v, comets, rs, ok, k - 1, id, plat);
      HandedReceiver(v, comets, rs[k - 1], k - 1, ok, id, plat);
      OneReceiverMore(v, comets, rs, ok, k, id, plat);
      HandedConcat(Entries(v, comets, rs, ok, k - 1), ReceiverEntries(v, comets, rs[k - 1], k - 1, ok), id, plat);
    }
  }

  // ---------- What is in the mailbox ----------

  function Copies(body: string, n: nat): (r: seq<string>)
    ensures |r| == n
  {
    seq(n, _ => body)
  }

  /** Saving for one terminal leaves another's mail, and what is seen of the browser, as it was. */
  lemma SavedElsewhere(v: map<string, User>, id: string, plat: Plat, kind: Kind, msg: string, id': string, plat': Plat)
    requires HasTerminal(v, id, plat) && (id' != id || plat' != plat)
    ensures var w := Saved(v, id', plat', kind, msg);
      && HasTerminal(w, id, plat) && WebOnline(w[id].sess) == WebOnline(v[id].sess)
      && MailOf(w, id, plat) == MailOf(v, id, plat)
  {
    if id' == id && HasTerminal(v, id, plat') {
      var u, i := v[id], First(v[id].sess, plat');
      WithMailSame(u, i, AddMail(u.sess[i].off, kind, WebOnline(u.sess), msg), plat);
    }
    hide AddMail, WebOnline;
  }

  lemma OneCopyMore(m: Mail, kind: Kind, web: bool, body: string, n: nat)
    ensures AddAll(m, kind, web, Copies(body, n + 1)) == AddMail(AddAll(m, kind, web, Copies(body, n)), kind, web, body)
  {
    hide AddMail;
    assert Copies(body, n + 1)[..n] == Copies(body, n);
  }

  lemma OneEntryMore(log: seq<Entry>, id: string, plat: Plat)
    requires log != []
    ensures var init, e := log[..|log| - 1], log[|log| - 1];
      Handed(log, id, plat)
      == Handed(init, id, plat) + if e.fate == HandedOffline && e.id == id && e.plat == plat then 1 else 0
  {
  }

  lemma {:induction false} SavedForEach(v: map<string, User>, kind: Kind, body: string, log: seq<Entry>,
                                        id: string, plat: Plat)
    requires HasTerminal(v, id, plat)
    ensures var w := SaveAll(v, Some(kind), body, log);
      && HasTerminal(w, id, plat) && WebOnline(w[id].sess) == WebOnline(v[id].sess)
      && MailOf(w, id, plat)
         == AddAll(MailOf(v, id, plat), kind, WebOnline(v[id].sess), Copies(body, Handed(log, id, plat)))
  {
    if log != [] {
      var init, e := log[..|log| - 1], log[|log| - 1];
      SavedForEach(v, kind, body, init, id, plat);
      OneEntryMore(log, id, plat);
      var w, n := SaveAll(v, Some(kind), body, init), Handed(init, id, plat);
      hide Handed, AddAll, AddMail, WebOnline, HasTerminal, MailOf, Saved;
      if e.fate == HandedOffline {
        if e.id == id && e.plat == plat {
          MailAfterSave(w, id, plat, kind, body);
          OneCopyMore(MailOf(v, id, plat), kind, WebOnline(v[id].sess), body, n);
        } else {
          SavedElsewhere(w, id, plat, kind, body, e.id, e.plat);
        }
      }
    }
  }

  lemma CountedOnce(c: nat, n: nat)
    ensures ((c + n) % 65536 + 1) % 65536 == (c + (n + 1)) % 65536
  {
  }

  lemma {:induction false} PushCopies(m: Mail, web: bool, body: string, n: nat)
    ensures AddAll(m, PushKind, web, Copies(body, n))
         == if n == 0 then m else m.(push := Push((m.push.offCnt + n) % 65536, body))
  {
    if n > 0 {
      PushCopies(m, web, body, n - 1);
      OneCopyMore(m, PushKind, web, body, n - 1);
      CountedOnce(m.push.offCnt, n - 1);
      hide AddAll;
    }
  }

  lemma {:induction false} CallbackCopies(m: Mail, web: bool, body: string, n: nat)
    ensures AddAll(m, CallbackKind, web, Copies(body, n))
         == if n == 0 || HasCallback(m.cb, body) then m else m.(cb := m.cb + [Item(false, body)])
  {
    if n > 0 {
      CallbackCopies(m, web, body, n - 1);
      OneCopyMore(m, CallbackKind, web, body, n - 1);
      hide AddAll;
      assert HasCallback(m.cb + [Item(false, body)], body) by {
        assert (m.cb + [Item(false, body)])[|m.cb|].msg == body;
      }
    }
  }

  lemma OneItemMore(im: seq<Item>, web: bool, body: string, n: nat)
    ensures im + Items(web, Copies(body, n + 1)) == im + Items(web, Copies(body, n)) + [Item(web, body)]
  {
  }

  /** Instant messages join the box under the browser's flag: all of them while there is room. */
  lemma {:induction false} ImCopies(m: Mail, web: bool, body: string, n: nat)
    ensures var w := AddAll(m, ImKind, web, Copies(body, n));
      && w.push == m.push && w.cb == m.cb
      && (n > 0 ==> w.im != [] && w.im[|w.im| - 1] == Item(web, body))
      && (|m.im| + n <= 51 ==> w.im == m.im + Items(web, Copies(body, n)))
  {
    if n == 0 {
      assert m.im + Items(web, Copies(body, 0)) == m.im;
    } else {
      ImCopies(m, web, body, n - 1);
      OneCopyMore(m, ImKind, web, body, n - 1);
      OneItemMore(m.im, web, body, n - 1);
      hide AddAll, Items, Copies;
    }
  }

  /** The box of the topic's kind has got the message `n` times: a counted push, one callback
      unless it was there already, or instant messages under the browser's flag. A topic that
      names no kind brings nothing. */
  predicate Got(m: Mail, r: Mail, topic: string, body: string, web: bool, n: nat)
  {
    if n == 0 then r == m
    else if topic == "push" then r == m.(push := Push((m.push.offCnt + n) % 65536, body))
    else if topic == "callback" then r == if HasCallback(m.cb, body) then m else m.(cb := m.cb + [Item(false, body)])
    else if topic == "msgDownward" then
      && r.push == m.push && r.cb == m.cb && r.im != [] && r.im[|r.im| - 1] == Item(web, body)
      && (|m.im| + n <= 51 ==> r.im == m.im + Items(web, Copies(body, n)))
    else r == m
  }

  lemma GotAll(m: Mail, topic: string, body: string, web: bool, n: nat)
    ensures var kind := KindOf(topic);
      Got(m, if kind.Some? then AddAll(m, kind.value, web, Copies(body, n)) else m, topic, body, web, n)
  {
    assert n == 0 ==> forall kind: Kind :: AddAll(m, kind, web, Copies(body, n)) == m;
    hide AddAll, HasCallback, Items, Copies;
    match KindOf(topic) {
      case Some(PushKind) => PushCopies(m, web, body, n);
      case Some(CallbackKind) => CallbackCopies(m, web, body, n);
      case Some(ImKind) => ImCopies(m, web, body, n);
      case None =>
    }
  }

  /** After a downward message every terminal's mailbox has got it as often as receivers left it
      there, and nothing else has changed in it. */
  lemma DownwardFills(v: map<string, User>, comets: set<string>, topic: string, rs: seq<Receiver>, ok: Oracle,
                      body: string, id: string, plat: Plat)
    requires AllOk(v) && HasTerminal(v, id, plat)
    ensures var w := SaveAll(v, KindOf(topic), body, Entries(v, comets, rs, ok, |rs|));
      Got(MailOf(v, id, plat), MailOf(w, id, plat), topic, body, WebOnline(v[id].sess),
        Owed(v, comets, rs, ok, |rs|, id, plat))
  {
    var log := Entries(v, comets, rs, ok, |rs|);
    HandedIsOwed(v, comets, rs, ok, |rs|, id, plat);
    GotAll(MailOf(v, id, plat), topic, body, WebOnline(v[id].sess), Owed(v, comets, rs, ok, |rs|, id, plat));
    match KindOf(topic) {
      case Some(kind) =>
        SavedForEach(v, kind, body, log, id, plat);
      case None =>
        NothingSaved(v, body, log);
    }
    hide *;
  }

  lemma {:induction false} NothingSaved(v: map<string, User>, body: string, log: seq<Entry>)
    ensures SaveAll(v, None, body, log) == v
  {
    if log != [] {
      NothingSaved(v, body, log[..|log| - 1]);
    }
  }
}
