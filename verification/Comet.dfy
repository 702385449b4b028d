/** A comet's handlers (comet/rpcdo.go, comet/socketdo.go, comet/offmsg.go) over its two maps,
    its sessions and the store. Whether a write to a socket succeeds is a parameter. */
module CometModel {
  import opened Prelude
  import opened Terminals
  import opened StoragerModel
  import opened CometSession
  import opened ConnMaps
  import opened Mailboxes
  import Rds

  // ---------- What becomes of an accepted message ----------

  datatype Fate =
    | Answered
    /** In a transaction of this session, with its timer running. */
    | Pending(s: Session)
    /** Given to the store's offline mail. */
    | Handed
    /** In a transaction of a session that was destroyed, with its timer stopped. */
    | Abandoned(s: Session)
    /** Left to Apple's push service or dropped. */
    | Gone

  datatype Entry = Entry(id: string, plat: Plat, kind: Kind, msg: string, fate: Fate)

  /** Which messages the comet keeps for later: pushes for Android, the rest for all but the web. */
  predicate Storable(kind: Kind, plat: Plat)
  {
    if kind == PushKind then plat == PLAT_ANDROID else plat != PLAT_WEB
  }

  function Unsent(kind: Kind, plat: Plat): Fate
  {
    if Storable(kind, plat) then Handed else Gone
  }

  /** In numbers: pushes are kept for type 1, and the rest for every type but 8. */
  lemma KeptExactly(kind: Kind, plat: Plat)
    ensures Unsent(kind, plat) == Handed <==> if kind == PushKind then plat == 1 else plat != 8
    ensures Unsent(kind, plat) != Handed ==> Unsent(kind, plat) == Gone
  {
  }

  /** A frame written, or tried, to a connection. */
  datatype Sent = Sent(conn: string, encode: int, kind: Kind, tid: int, msg: string, offline: nat, flag: int)

  datatype KickSent = KickSent(conn: string, encode: int, tid: int, reason: nat)

  class Comet {
    const store: Storager
    var ids: map<string, Key>
    var sessions: map<Key, Session>

    /** Every session ever made, every message ever accepted, and the numbers of those given
        to the store, in order. */
    ghost var all: set<Session>
    ghost var ledger: seq<Entry>
    ghost var handed: seq<nat>

    // ---------- Invariant ----------

    ghost predicate InLedger(s: Session, i: nat)
      requires i < |s.marks| == |s.trans|
      reads this`ledger, s
    {
      var n := s.marks[i].message;
      n < |ledger|
      && ledger[n] == Entry(s.id, s.plat, s.trans[i].kind, s.trans[i].msg, if s.ended then Abandoned(s) else Pending(s))
    }

    /** Each transaction carries one message of the ledger, and no two the same. */
    ghost predicate SessionTied(s: Session)
      reads this`ledger, s
    {
      && s.Valid()
      && (forall i :: 0 <= i < |s.marks| ==> InLedger(s, i))
      && (forall i, j :: 0 <= i < j < |s.marks| ==> s.marks[i].message != s.marks[j].message)
    }

    ghost predicate Carries(s: Session, n: nat)
      reads s
    {
      exists i :: 0 <= i < |s.marks| && s.marks[i].message == n
    }

    /** A message said to be in a transaction is in one. */
    ghost predicate EntryTied(n: nat)
      requires n < |ledger|
      reads this`ledger, this`all, all
    {
      match ledger[n].fate
      case Pending(s) => s in all && !s.ended && Carries(s, n)
      case Abandoned(s) => s in all && s.ended && Carries(s, n)
      case Gone => !Storable(ledger[n].kind, ledger[n].plat)
      case _ => true
    }

    ghost predicate Logged()
      reads this`ledger, this`handed
    {
      && (forall i, j :: 0 <= i < j < |handed| ==> handed[i] != handed[j])
      && (forall n: nat :: n in handed <==> n < |ledger| && ledger[n].fate == Handed)
    }

    /** A stored session is not destroyed, and its own connection leads to it. */
    ghost predicate MapOk(k: Key)
      requires k in sessions
      reads this`ids, this`sessions, this`all, all`ended
    {
      var s := sessions[k];
      s in all && !s.ended && k == Key(s.id, s.plat) && s.conn in ids && ids[s.conn] == k
    }

    ghost predicate MapsOk()
      reads this`ids, this`sessions, this`all, all`ended
    {
      forall k :: k in sessions ==> MapOk(k)
    }

    /** The sessions and the ledger fit. */
    ghost predicate Books()
      reads this`ledger, this`handed, this`all, all
    {
      && Logged()
      && (forall s :: s in all ==> SessionTied(s))
      && (forall n :: 0 <= n < |ledger| ==> EntryTied(n))
    }

    ghost predicate Tied()
      reads this, all
    {
      MapsOk() && Books()
    }

    ghost predicate Valid()
      reads this, all, store, store.memStore.Values, store.AllItems()
    {
      Tied() && store.Valid()
    }

    constructor (store: Storager)
      requires store.Valid()
      ensures Valid() && this.store == store
      ensures ids == map[] && sessions == map[] && ledger == [] && handed == [] && all == {}
    {
      this.store := store;
      ids, sessions := map[], map[];
      all, ledger, handed := {}, [], [];
    }

    /** Only session `s` and the entries of its messages changed, and they are in order. */
    twostate lemma KeepTied(s: Session)
      requires old(Tied()) && all == old(all) && s in all
      requires forall t :: t in all && t != s ==> unchanged(t)
      requires |old(ledger)| <= |ledger|
      requires forall n :: 0 <= n < |old(ledger)| && old(ledger)[n].fate != Pending(s) ==> ledger[n] == old(ledger)[n]
      requires SessionTied(s) && (old(s.ended) ==> s.ended) && Logged()
      requires forall n :: 0 <= n < |ledger| && (n >= |old(ledger)| || Concerns(old(ledger)[n], s)) ==> EntryTied(n)
      ensures Books()
    {
      forall t | t in all && t != s
        ensures SessionTied(t)
      {
        assert old(SessionTied(t));
        forall i | 0 <= i < |t.marks|
          ensures InLedger(t, i)
        {
          assert old(InLedger(t, i));
        }
      }
      forall n | 0 <= n < |old(ledger)| && !Concerns(old(ledger)[n], s)
        ensures EntryTied(n)
      {
        assert old(EntryTied(n));
      }
    }

    // ---------- Conservation ----------

    /** Position of a message's transaction in a session. */
    ghost predicate At(s: Session, i: nat, n: nat)
      reads s
    {
      i < |s.marks| == |s.trans| && s.marks[i].message == n
    }

    /** Every accepted message is in exactly one class. A message is carried by a transaction
        exactly when it is pending (timer running) or abandoned (session destroyed, timer
        stopped); then by one transaction of one session, and with its own content. It was given
        to the store exactly when the books say so, and then once. */
    lemma Conservation(n: nat)
      requires Tied() && n < |ledger|
      ensures var e := ledger[n];
        forall s :: s in all ==>
          (Carries(s, n) <==> e.fate == if s.ended then Abandoned(s) else Pending(s))
      ensures forall s, i: nat :: s in all && At(s, i, n) ==>
        && s.trans[i].kind == ledger[n].kind && s.trans[i].msg == ledger[n].msg
        && s.id == ledger[n].id && s.plat == ledger[n].plat && s.trans[i].armed == !s.ended
      ensures forall s, i: nat, j: nat :: s in all && At(s, i, n) && At(s, j, n) ==> i == j
      ensures ledger[n].fate == Handed <==> n in handed
      ensures forall i, j :: 0 <= i < j < |handed| ==> handed[i] != handed[j]
    {
      assert EntryTied(n);
      forall s | s in all
        ensures Carries(s, n) ==> ledger[n].fate == if s.ended then Abandoned(s) else Pending(s)
      {
        assert SessionTied(s);
        if Carries(s, n) {
          var i :| 0 <= i < |s.marks| && s.marks[i].message == n;
          assert InLedger(s, i);
        }
      }
      forall s, i: nat | s in all && At(s, i, n)
        ensures s.trans[i].kind == ledger[n].kind && s.trans[i].msg == ledger[n].msg
        ensures s.id == ledger[n].id && s.plat == ledger[n].plat && s.trans[i].armed == !s.ended
      {
        assert SessionTied(s) && InLedger(s, i);
      }
      forall s, i: nat, j: nat | s in all && At(s, i, n) && At(s, j, n)
        ensures i == j
      {
        assert SessionTied(s);
      }
    }

    /** Nothing the comet keeps is ever dropped: it is answered, pending, in the store, or in a
        destroyed session. */
    lemma StorableIsKept(n: nat)
      requires Tied() && n < |ledger| && Storable(ledger[n].kind, ledger[n].plat)
      ensures var fate := ledger[n].fate;
        fate == Answered || n in handed || exists s :: s in all && Carries(s, n)
    {
      Conservation(n);
      assert EntryTied(n);
    }

    // ---------- One message at a time ----------

    /** A message written to a session becomes a transaction there. */
    method Track(s: Session, kind: Kind, msg: string)
      requires Tied() && s in all && !s.ended && s.calls > 0
      requires forall i :: 0 <= i < |s.marks| ==> s.marks[i].born < s.calls
      modifies s`trans, s`marks, this`ledger
      ensures Tied()
      ensures ledger == old(ledger) + [Entry(s.id, s.plat, kind, msg, Pending(s))]
      ensures s.trans == old(s.trans) + [Trans(s.tid, kind, msg, true)]
      ensures s.marks == old(s.marks) + [Mark(s.calls, |old(ledger)|)]
    {
      assert SessionTied(s);
      s.SaveTransaction(kind, msg, |ledger|);
      ledger := ledger + [Entry(s.id, s.plat, kind, msg, Pending(s))];
      NewMark(s);
      hide SessionTied, EntryTied, InLedger, MapsOk;
      KeepTied(s);
      hide Books;
    }

    twostate lemma NewMark(s: Session)
      requires old(Tied()) && s in all && all == old(all)
      requires s.Valid() && !s.ended && !old(s.ended)
      requires s.marks == old(s.marks) + [Mark(s.calls, |old(ledger)|)]
      requires |s.trans| == |old(s.trans)| + 1 && s.trans == old(s.trans) + [s.trans[|old(s.trans)|]]
      requires var t := s.trans[|old(s.trans)|];
        ledger == old(ledger) + [Entry(s.id, s.plat, t.kind, t.msg, Pending(s))]
      ensures SessionTied(s)
      ensures EntryTied(|old(ledger)|)
      ensures forall n :: 0 <= n < |old(ledger)| && Concerns(old(ledger)[n], s) ==> EntryTied(n)
    {
      assert old(SessionTied(s));
      var k := |old(s.marks)|;
      assert s.marks[k] == Mark(s.calls, |old(ledger)|);
      forall i | 0 <= i < k
        ensures InLedger(s, i) && s.marks[i] == old(s.marks)[i] && s.marks[i].message < |old(ledger)|
      {
        assert old(InLedger(s, i));
      }
      assert InLedger(s, k);
      hide InLedger;
      forall n | 0 <= n < |old(ledger)| && Concerns(old(ledger)[n], s)
        ensures EntryTied(n)
      {
        assert old(EntryTied(n));
        var i :| 0 <= i < k && old(s.marks)[i].message == n;
        assert s.marks[i].message == n;
      }
    }

    method DrawTid(s: Session) returns (tid: int)
      requires Tied() && s in all
      modifies s`tid, s`calls
      ensures Tied() && tid == s.tid == TidAt(s.calls) && s.calls == old(s.calls) + 1
      ensures forall i :: 0 <= i < |s.marks| ==> s.marks[i].born < s.calls
    {
      assert SessionTied(s);
      tid := s.NextTid();
      SameEntries(s);
      hide SessionTied, EntryTied, InLedger, MapsOk;
      KeepTied(s);
      hide Books;
    }

    twostate lemma SameEntries(s: Session)
      requires old(Tied()) && s in all && unchanged(this)
      requires s.Valid() && s.marks == old(s.marks) && s.trans == old(s.trans) && s.ended == old(s.ended)
      ensures SessionTied(s)
      ensures forall n :: 0 <= n < |ledger| && Concerns(ledger[n], s) ==> EntryTied(n)
    {
      assert old(SessionTied(s));
      forall i | 0 <= i < |s.marks|
        ensures InLedger(s, i)
      {
        assert old(InLedger(s, i));
      }
      hide InLedger;
      forall n | 0 <= n < |ledger| && Concerns(ledger[n], s)
        ensures EntryTied(n)
      {
        assert old(EntryTied(n));
        var i :| 0 <= i < |old(s.marks)| && old(s.marks)[i].message == n;
        assert s.marks[i].message == n;
      }
    }

    // ---------- A transaction ends ----------

    /** A transaction was just removed, and the entry of its message changed. */
    twostate predicate Closing(s: Session, i: nat)
      requires s in all
      reads this, all
    {
      && Cut(old(s.marks), old(s.trans), s.marks, s.trans, i)
      && Settles(old(ledger), ledger, old(s.marks)[i].message) && EntryTied(old(s.marks)[i].message)
    }

    twostate lemma ClosedSession(s: Session)
      requires old(Tied()) && s in all && all == old(all) && s.Valid() && s.ended == old(s.ended)
      requires exists i: nat :: Closing(s, i)
      ensures SessionTied(s)
    {
      assert old(SessionTied(s));
      var i: nat :| Closing(s, i);
      hide EntryTied, Removed, Logged, MapOk, FirstTid, TidAt;
      RemovedIs(old(s.marks), i);
      RemovedIs(old(s.trans), i);
      forall k | 0 <= k < |s.marks|
        ensures InLedger(s, k)
      {
        assert old(InLedger(s, if k < i then k else k + 1));
      }
    }

    twostate lemma ClosedEntries(s: Session)
      requires old(Tied()) && s in all && all == old(all) && s.ended == old(s.ended)
      requires exists i: nat :: Closing(s, i)
      ensures forall n :: 0 <= n < |ledger| && Concerns(old(ledger)[n], s) ==> EntryTied(n)
    {
      var i: nat :| Closing(s, i);
      hide Removed, Logged, Storable, SessionTied, MapOk;
      forall n | 0 <= n < |ledger| && Concerns(old(ledger)[n], s)
        ensures EntryTied(n)
      {
        assert old(EntryTied(n));
        if n != old(s.marks)[i].message {
          StillCarried(old(s.marks), i, n);
          assert ledger[n] == old(ledger)[n] && Carries(s, n);
        }
      }
    }

    /** Deletes transaction `i` of a live session by its id, which must find it. */
    method Close(s: Session, i: nat, ghost fate: Fate)
      requires Tied() && s in all && !s.ended && i < |s.trans| && FirstTid(s.trans, s.trans[i].tid) == i
      requires fate == Answered || fate == Unsent(s.trans[i].kind, s.plat)
      modifies s`trans, s`marks, this`ledger, this`handed
      ensures Tied()
      ensures s.trans == Removed(old(s.trans), i)
      ensures old(|s.marks| == |s.trans|) && s.marks == Removed(old(s.marks), i)
      ensures old(s.marks[i].message < |ledger|)
      ensures ledger == old(ledger)[old(s.marks)[i].message :=
        Entry(s.id, s.plat, old(s.trans)[i].kind, old(s.trans)[i].msg, fate)]
      ensures handed == if fate == Handed then old(handed) + [old(s.marks)[i].message] else old(handed)
    {
      Remove(s, i, fate);
      ClosedSession(s);
      ClosedEntries(s);
      hide SessionTied, EntryTied, InLedger, Logged, Cut, Settles, Storable, FirstTid, Removed, MapsOk;
      KeepTied(s);
      hide Books;
    }

    method Remove(s: Session, i: nat, ghost fate: Fate)
      requires Tied() && s in all && !s.ended && i < |s.trans| && FirstTid(s.trans, s.trans[i].tid) == i
      requires fate == Answered || fate == Unsent(s.trans[i].kind, s.plat)
      modifies s`trans, s`marks, this`ledger, this`handed
      ensures Logged() && s.Valid() && Closing(s, i)
      ensures old(s.marks[i].message < |ledger| && ledger[s.marks[i].message].fate == Pending(s))
      ensures ledger == old(ledger)[old(s.marks)[i].message :=
        Entry(s.id, s.plat, old(s.trans)[i].kind, old(s.trans)[i].msg, fate)]
      ensures handed == if fate == Handed then old(handed) + [old(s.marks)[i].message] else old(handed)
    {
      assert SessionTied(s);
      Settle(s, i, fate);
      hide Tied, Logged, FirstTid, InLedger, Settles, Cut;
      CutOut(s, i);
    }

    method CutOut(s: Session, i: nat)
      requires s.Valid() && i < |s.trans| && FirstTid(s.trans, s.trans[i].tid) == i
      modifies s`trans, s`marks
      ensures s.Valid() && Cut(old(s.marks), old(s.trans), s.marks, s.trans, i)
    {
      hide Removed, FirstTid;
      var _ := s.DelTrans(s.trans[i].tid);
    }

    ghost method Settle(s: Session, i: nat, fate: Fate)
      requires Logged() && SessionTied(s) && !s.ended && i < |s.trans|
      requires fate == Answered || fate == Unsent(s.trans[i].kind, s.plat)
      modifies this`ledger, this`handed
      ensures Logged() && i < |s.marks| && s.marks[i].message < |ledger|
      ensures old(s.marks[i].message < |ledger| && ledger[s.marks[i].message].fate == Pending(s))
      ensures ledger == old(ledger)[s.marks[i].message :=
        Entry(s.id, s.plat, s.trans[i].kind, s.trans[i].msg, fate)]
      ensures Settles(old(ledger), ledger, s.marks[i].message) && ledger[s.marks[i].message].fate == fate
      ensures handed == if fate == Handed then old(handed) + [s.marks[i].message] else old(handed)
    {
      assert InLedger(s, i);
      hide Logged, SessionTied;
      Record(s.marks[i].message, fate);
    }

    /** A pending message meets its fate, in the books. */
    ghost method Record(n: nat, fate: Fate)
      requires Logged() && n < |ledger| && ledger[n].fate.Pending?
      requires fate == Answered || fate == Handed || fate == Gone
      modifies this`ledger, this`handed
      ensures Logged() && ledger == old(ledger)[n := old(ledger)[n].(fate := fate)]
      ensures handed == if fate == Handed then old(handed) + [n] else old(handed)
    {
      assert n !in handed;
      ledger := ledger[n := ledger[n].(fate := fate)];
      if fate == Handed {
        handed := handed + [n];
      }
    }

    // ---------- A message that never reaches a session ----------

    ghost method Append(e: Entry)
      requires Logged() && (e.fate == Handed || e.fate == Gone)
      modifies this`ledger, this`handed
      ensures Logged() && ledger == old(ledger) + [e]
      ensures handed == if e.fate == Handed then old(handed) + [|old(ledger)|] else old(handed)
    {
      assert |ledger| !in handed;
      ledger := ledger + [e];
      if e.fate == Handed {
        handed := handed + [|ledger| - 1];
      }
      assert forall n: nat :: n in handed <==> n in old(handed) || (n == |old(ledger)| && e.fate == Handed);
    }

    ghost method Log(id: string, plat: Plat, kind: Kind, msg: string, fate: Fate)
      requires Tied() && fate == Unsent(kind, plat)
      modifies this`ledger, this`handed
      ensures Tied() && ledger == old(ledger) + [Entry(id, plat, kind, msg, fate)]
      ensures handed == if fate == Handed then old(handed) + [|old(ledger)|] else old(handed)
    {
      Append(Entry(id, plat, kind, msg, fate));
      hide Logged;
      forall s | s in all
        ensures SessionTied(s)
      {
        assert old(SessionTied(s));
        forall i | 0 <= i < |s.marks|
          ensures InLedger(s, i)
        {
          assert old(InLedger(s, i));
        }
      }
      forall n | 0 <= n < |old(ledger)|
        ensures EntryTied(n)
      {
        assert old(EntryTied(n));
      }
    }

    /** One more message was accepted and has met this fate, in the books and in the store. */
    twostate predicate Booked(kind: Kind, id: string, plat: Plat, msg: string, fate: Fate)
      reads this`ledger, this`handed, store`view
    {
      && ledger == old(ledger) + [Entry(id, plat, kind, msg, fate)]
      && handed == (if fate == Handed then old(handed) + [|old(ledger)|] else old(handed))
      && store.view == (if fate == Handed then Rds.Saved(old(store.view), id, plat, kind, msg) else old(store.view))
    }

    /** The message goes to the store or, where the comet keeps none, to Apple or nowhere. */
    method HandOver(id: string, plat: Plat, kind: Kind, msg: string)
      requires Valid()
      modifies this`ledger, this`handed, store, store.Items(id)`off
      ensures Valid() && store.OwnItems(id) && Booked(kind, id, plat, msg, Unsent(kind, plat))
    {
      Log(id, plat, kind, msg, Unsent(kind, plat));
      hide Tied, Storager.ValidBut;
      Keep(id, plat, kind, msg);
    }

    method Keep(id: string, plat: Plat, kind: Kind, msg: string)
      requires store.Valid()
      modifies store, store.Items(id)`off
      ensures store.Valid() && store.OwnItems(id)
      ensures store.view ==
        if Storable(kind, plat) then Rds.Saved(old(store.view), id, plat, kind, msg) else old(store.view)
    {
      hide Rds.Saved;
      match kind {
        case PushKind =>
          if plat == PLAT_ANDROID {
            store.SavePushMsg(id, plat, msg);
          }
        case CallbackKind =>
          if plat != PLAT_WEB {
            store.SaveCallbackMsg(id, plat, msg);
          }
        case ImKind =>
          if plat != PLAT_WEB {
            store.SaveImMsg(id, plat, msg);
          }
      }
    }

    // ---------- Downstream messages ----------

    /** The frame carries the session's next id; if it was written there is a transaction. */
    twostate predicate Wrote(s: Session, out: Sent, kind: Kind, msg: string, offline: nat, flag: int, wrote: bool)
      reads s`calls, s`trans
    {
      && s.calls == old(s.calls) + 1 && out == Sent(s.conn, s.encode, kind, TidAt(s.calls), msg, offline, flag)
      && s.trans == if wrote then old(s.trans) + [Trans(out.tid, kind, msg, true)] else old(s.trans)
    }

    ghost function Target(k: Key): set<Session>
      reads this
    {
      if k in sessions then {sessions[k]} else {}
    }

    /** Push, callback and message: the same but for the flag, which callbacks do not have. */
    method Downward(kind: Kind, id: string, plat: Plat, msg: string, wrote: bool) returns (out: Option<Sent>)
      requires Valid()
      modifies this`ledger, this`handed, Target(Key(id, plat)), store, store.Items(id)`off
      ensures Valid()
      ensures Booked(kind, id, plat, msg,
                if Key(id, plat) in sessions && wrote then Pending(sessions[Key(id, plat)]) else Unsent(kind, plat))
      ensures out.Some? <==> Key(id, plat) in sessions
      ensures out.Some? ==>
        Wrote(sessions[Key(id, plat)], out.value, kind, msg, 0,
          if kind != CallbackKind then Flag(id) else 0, wrote)
    {
      out := None;
      var flag := if kind != CallbackKind then Flag(id) else 0;
      if Key(id, plat) in sessions {
        var s := sessions[Key(id, plat)];
        assert s.id == id && s.plat == plat && s in all;
        hide Tied, Storable, Wrote, TidAt, Booked, Unsent, Storager.ValidBut;
        var f := SendOrHandOver(s, kind, msg, 0, flag, wrote);
        out := Some(f);
      } else {
        hide Tied, Storable, Wrote, TidAt, Booked, Unsent, Storager.ValidBut;
        HandOver(id, plat, kind, msg);
      }
    }

    /** A push request of the router is dispatched by its type: 5, 7 and 9 are the three kinds, and
        any other type does nothing. */
    method RpcAsyncHandle(tp: nat, id: string, plat: Plat, msg: string, wrote: bool) returns (out: Option<Sent>)
      requires Valid()
      modifies this`ledger, this`handed, Target(Key(id, plat)), store, store.Items(id)`off
      ensures Valid()
      ensures tp !in {5, 7, 9} ==>
        out.None? && ledger == old(ledger) && handed == old(handed) && store.view == old(store.view)
      ensures tp in {5, 7, 9} ==>
        Booked(if tp == 5 then PushKind else if tp == 7 then CallbackKind else ImKind, id, plat, msg,
          if Key(id, plat) in sessions && wrote then Pending(sessions[Key(id, plat)])
          else Unsent(if tp == 5 then PushKind else if tp == 7 then CallbackKind else ImKind, plat))
    {
      hide Tied, Storable, Wrote, TidAt, Booked, Unsent, Storager.ValidBut;
      match KindOfType(tp) {
        case Some(kind) =>
          out := Downward(kind, id, plat, msg, wrote);
        case None =>
          out := None;
      }
    }

    method SendOrHandOver(s: Session, kind: Kind, msg: string, offline: nat, flag: int, wrote: bool) returns (out: Sent)
      requires Valid() && s in all && !s.ended
      modifies this`ledger, this`handed, s`tid, s`calls, s`trans, s`marks, store, store.Items(s.id)`off
      ensures Valid() && store.OwnItems(s.id)
      ensures Wrote(s, out, kind, msg, offline, flag, wrote)
      ensures Booked(kind, s.id, s.plat, msg, if wrote then Pending(s) else Unsent(kind, s.plat))
    {
      hide Tied, Storable, TidAt, Unsent;
      var tid := DrawTid(s);
      out := Sent(s.conn, s.encode, kind, tid, msg, offline, flag);
      Pass(s, kind, msg, wrote);
    }

    /** What was written is tracked in the session, under the id drawn last. */
    method Pass(s: Session, kind: Kind, msg: string, wrote: bool)
      requires Valid() && s in all && !s.ended && s.calls > 0
      requires forall i :: 0 <= i < |s.marks| ==> s.marks[i].born < s.calls
      modifies this`ledger, this`handed, s`trans, s`marks, store, store.Items(s.id)`off
      ensures Valid() && store.OwnItems(s.id)
      ensures s.trans == if wrote then old(s.trans) + [Trans(s.tid, kind, msg, true)] else old(s.trans)
      ensures Booked(kind, s.id, s.plat, msg, if wrote then Pending(s) else Unsent(kind, s.plat))
    {
      hide Tied, Storable, TidAt;
      if wrote {
        Track(s, kind, msg);
      } else {
        HandOver(s.id, s.plat, kind, msg);
      }
    }

    /** A response answers the first transaction with its id in the session that the
        connection's key names now. */
    method ProcResp(conn: string, tid: int) returns (found: bool)
      requires Valid()
      modifies this`ledger, this`handed, if conn in ids then Target(ids[conn]) else {}
      ensures Valid() && handed == old(handed)
      ensures found <==> (conn in ids && ids[conn] in sessions
        && FirstTid(old(sessions[ids[conn]].trans), tid) < old(|sessions[ids[conn]].trans|))
      ensures !found ==> ledger == old(ledger)
      ensures found ==> AnsweredAt(sessions[ids[conn]], FirstTid(old(sessions[ids[conn]].trans), tid))
    {
      found := false;
      if conn in ids && ids[conn] in sessions {
        var s := sessions[ids[conn]];
        assert s in all && !s.ended;
        hide Tied, Storager.ValidBut;
        found := Answer(s, tid);
      }
    }

    /** The message of transaction `i` is answered, and the transaction is gone. */
    twostate predicate AnsweredAt(s: Session, i: nat)
      reads this`ledger, s`trans
    {
      && i < |old(s.marks)| == |old(s.trans)| && old(s.marks)[i].message < |old(ledger)|
      && s.trans == Removed(old(s.trans), i)
      && var n := old(s.marks)[i].message; ledger == old(ledger)[n := old(ledger)[n].(fate := Answered)]
    }

    method Answer(s: Session, tid: int) returns (found: bool)
      requires Valid() && s in all && !s.ended
      modifies this`ledger, this`handed, s`trans, s`marks
      ensures Valid() && handed == old(handed)
      ensures found <==> FirstTid(old(s.trans), tid) < |old(s.trans)|
      ensures !found ==> ledger == old(ledger)
      ensures found ==> AnsweredAt(s, FirstTid(old(s.trans), tid))
    {
      var i := s.GetTrans(tid);
      found := i.Some?;
      if found {
        hide Storable, Tied, Removed, FirstTid, AnsweredAt, Storager.ValidBut;
        AnswerAt(s, i.value);
      }
    }

    method AnswerAt(s: Session, i: nat)
      requires Valid() && s in all && !s.ended && i < |s.trans| && FirstTid(s.trans, s.trans[i].tid) == i
      modifies this`ledger, this`handed, s`trans, s`marks
      ensures Valid() && handed == old(handed) && AnsweredAt(s, i)
    {
      assert SessionTied(s) && InLedger(s, i);
      hide Storable, Tied, Removed, FirstTid, Storager.ValidBut;
      Close(s, i, Answered);
    }

    /** The timer of a transaction fires: its message goes to the store, if it is of a kind
        that is kept, and the transaction is deleted. */
    method Timeout(s: Session, i: nat)
      requires Valid() && s in all && !s.ended && i < |s.trans| && s.Young()
      modifies this`ledger, this`handed, s`trans, s`marks, store, store.Items(s.id)`off
      ensures Valid()
      ensures s.trans == Removed(old(s.trans), i)
      ensures i < |old(s.marks)| && old(s.marks)[i].message < |old(ledger)|
      ensures var t, n := old(s.trans)[i], old(s.marks)[i].message;
        var kept := Storable(t.kind, s.plat);
        && ledger == old(ledger)[n := old(ledger)[n].(fate := if kept then Handed else Gone)]
        && handed == (if kept then old(handed) + [n] else old(handed))
        && store.view == (if kept then Rds.Saved(old(store.view), s.id, s.plat, t.kind, t.msg) else old(store.view))
    {
      assert SessionTied(s) && InLedger(s, i);
      s.FindsItself(i);
      var t := s.trans[i];
      Close(s, i, Unsent(t.kind, s.plat));
      hide Tied, Storager.ValidBut;
      Keep(s.id, s.plat, t.kind, t.msg);
    }

    // ---------- The maps ----------

    /** The two maps, with each session seen as its connection and token. */
    ghost function View(): Maps
      reads this`ids, this`sessions
    {
      Maps(ids, map k | k in sessions :: Info(sessions[k].conn, sessions[k].token))
    }

    /** A session was destroyed: its messages are abandoned, and nothing else changed. */
    twostate predicate Ended(s: Session)
      reads this`ledger, s`ended, s`trans, s`marks
    {
      && s.ended && s.trans == Disarmed(old(s.trans)) && s.marks == old(s.marks)
      && ledger == AllAbandoned(old(ledger), s)
    }

    twostate lemma EndedTied(s: Session)
      requires old(Tied()) && s in all && all == old(all) && s.Valid() && !old(s.ended) && Ended(s)
      ensures SessionTied(s)
      ensures forall n :: 0 <= n < |ledger| && Concerns(old(ledger)[n], s) ==> EntryTied(n)
    {
      assert old(SessionTied(s));
      forall i | 0 <= i < |s.marks|
        ensures InLedger(s, i)
      {
        assert old(InLedger(s, i));
      }
      forall n | 0 <= n < |ledger| && Concerns(old(ledger)[n], s)
        ensures EntryTied(n)
      {
        assert old(EntryTied(n));
        var i :| 0 <= i < |old(s.marks)| && old(s.marks)[i].message == n;
        assert s.marks[i].message == n;
      }
    }

    /** Destroys a session; the maps still hold it. */
    method Abandon(s: Session)
      requires Tied() && s in all && !s.ended
      modifies this`ledger, s`trans, s`ended
      ensures Ended(s) && Books()
    {
      assert SessionTied(s);
      s.Destroy();
      ledger := AllAbandoned(ledger, s);
      EndedTied(s);
      assert Logged();
      hide SessionTied, EntryTied, InLedger, Logged, MapsOk, Disarmed, AllAbandoned;
      KeepTied(s);
    }

    /** The other sessions in the maps are still as they should be. */
    method Release(s: Session)
      requires Tied() && s in all && !s.ended
      modifies this`ledger, s`trans, s`ended
      ensures Ended(s) && Books()
      ensures forall l :: l in sessions && l != Key(s.id, s.plat) ==> MapOk(l)
    {
      hide Books, Ended;
      Abandon(s);
      forall l | l in sessions && l != Key(s.id, s.plat)
        ensures MapOk(l)
      {
        assert old(MapOk(l));
      }
    }

    /** Destroys the session of `k` and takes it and the connection out of the maps. */
    method Drop(k: Key, conn: string, s: Session, ghost m: Maps)
      requires Tied() && k in sessions && sessions[k] == s && conn in ids && ids[conn] == k && View() == m
      modifies this`ids, this`sessions, this`ledger, s`trans, s`ended
      ensures Tied() && Ended(s) && View() == Maps(m.ids - {conn}, m.sessions - {k})
    {
      assert MapOk(k);
      hide Books, Ended, View, MapOk;
      Release(s);
      Forget(k, conn, s, m);
    }

    method Forget(k: Key, conn: string, s: Session, ghost m: Maps)
      requires k in sessions && sessions[k] == s && conn in ids && ids[conn] == k && View() == m
      requires forall l :: l in sessions && l != k ==> MapOk(l)
      modifies this`ids, this`sessions
      ensures MapsOk() && View() == Maps(m.ids - {conn}, m.sessions - {k})
    {
      ids := ids - {conn};
      sessions := sessions - {k};
      forall l | l in sessions
        ensures MapOk(l)
      {
        assert old(MapOk(l));
      }
    }

    /** The end of a connection. */
    method ProcUnRegister(conn: string) returns (reported: Option<(Key, string)>)
      requires Valid()
      modifies this`ids, this`sessions, this`ledger, if conn in ids then Target(ids[conn]) else {}
      ensures Valid() && View() == Unregister(old(View()), conn)
      ensures reported.Some? <==> conn in old(ids) && old(ids[conn]) in old(sessions)
      ensures reported.Some? ==>
        Ended(old(sessions[ids[conn]])) && reported.value == old((ids[conn], sessions[ids[conn]].token))
      ensures reported.None? ==> ledger == old(ledger)
    {
      reported := None;
      if conn in ids && ids[conn] in sessions {
        var k := ids[conn];
        reported := Some((k, sessions[k].token));
        hide Tied, Ended, View, Storager.ValidBut;
        UnregisterAt(conn, k, sessions[k]);
      }
    }

    method UnregisterAt(conn: string, k: Key, s: Session)
      requires Tied() && conn in ids && ids[conn] == k && k in sessions && sessions[k] == s
      modifies this`ids, this`sessions, this`ledger, s`trans, s`ended
      ensures Tied() && View() == Unregister(old(View()), conn) && Ended(s)
    {
      ghost var m := View();
      assert m.ids == ids && k in m.sessions;
      hide Tied, Ended, View;
      Drop(k, conn, s, m);
    }

    /** A kick names a session by its token; a session with another token is left alone. The kick
        frame goes to the session's connection, with the router's reason. */
    method Kick(id: string, plat: Plat, token: string, reason: nat) returns (reported: bool, frame: Option<KickSent>)
      requires Valid()
      modifies this`ids, this`sessions, this`ledger, Target(Key(id, plat))
      ensures Valid() && View() == ConnMaps.Kick(old(View()), Key(id, plat), token)
      ensures reported == Hits(old(View()), Key(id, plat), token) && (frame.Some? <==> reported)
      ensures reported ==>
        var s := old(sessions[Key(id, plat)]);
        Ended(s) && frame.value == KickSent(s.conn, s.encode, TidAt(old(s.calls) + 1), reason)
      ensures !reported ==> ledger == old(ledger)
    {
      reported, frame := false, None;
      var k := Key(id, plat);
      if k in sessions {
        var s := sessions[k];
        if s.token != token {
          return;
        }
        hide Ended, TidAt;
        var tid := KickSession(k, s);
        reported, frame := true, Some(KickSent(s.conn, s.encode, tid, reason));
      }
    }

    /** The kick frame takes an id of its own. */
    method KickSession(k: Key, s: Session) returns (tid: int)
      requires Tied() && k in sessions && sessions[k] == s
      modifies this`ids, this`sessions, this`ledger, s
      ensures Tied() && Ended(s) && tid == TidAt(old(s.calls) + 1)
      ensures View() == Maps(old(ids) - {s.conn}, old(View()).sessions - {k})
    {
      tid := DrawTid(s);
      hide Tied, TidAt, Storager.ValidBut;
      Drop(k, s.conn, s, View());
    }

    // ---------- Offline mail on registration ----------

    /** What a drain added to the books, to the connection, and to the session, which drew one id
        for every frame. */
    twostate predicate Carried(s: Session, out: seq<Sent>, t: Traffic)
      reads this`ledger, s`trans, s`calls
    {
      && ledger == old(ledger) + t.entries && out == t.frames
      && s.trans == old(s.trans) + t.trans && s.calls == old(s.calls) + |t.frames|
    }

    /** Sends drained messages; each is pending if it was written and saved again if not. */
    method Resend(s: Session, kind: Kind, items: seq<Rds.Item>, ok: Writes) returns (out: seq<Sent>)
      requires Valid() && s in all && !s.ended && Storable(kind, s.plat)
      modifies this`ledger, this`handed, s`tid, s`calls, s`trans, s`marks, store, store.Items(s.id)`off
      ensures Valid() && store.OwnItems(s.id)
      ensures store.view == Rds.SavedAll(old(store.view), s.id, s.plat, kind, Failed(items, kind, ok, |items|))
      ensures Carried(s, out, ResentTraffic(s, kind, items, ok, old(s.calls)))
    {
      ghost var start := Now(ledger, store.view, s.trans, s.calls, []);
      SoFarStart(s, kind, items, ok, start);
      hide *;
      out := ResendAll(s, kind, items, ok, start);
      SoFarEnd(s, kind, items, ok, start, Now(ledger, store.view, s.trans, s.calls, out));
    }

    method ResendAll(s: Session, kind: Kind, items: seq<Rds.Item>, ok: Writes, ghost start: Now)
        returns (out: seq<Sent>)
      requires Valid() && s in all && !s.ended && Storable(kind, s.plat)
      requires SoFar(s, kind, items, ok, 0, start, Now(ledger, store.view, s.trans, s.calls, []))
      modifies this`ledger, this`handed, s`tid, s`calls, s`trans, s`marks, store, store.Items(s.id)`off
      ensures Valid() && store.OwnItems(s.id)
      ensures SoFar(s, kind, items, ok, |items|, start, Now(ledger, store.view, s.trans, s.calls, out))
    {
      hide Tied, SoFar, Storable, Storager.ValidBut;
      out := [];
      var k := 0;
      while k < |items|
        invariant k <= |items| && !s.ended && s in all
        invariant Valid() && store.OwnItems(s.id)
        invariant SoFar(s, kind, items, ok, k, start, Now(ledger, store.view, s.trans, s.calls, out))
      {
        out := ResendOne(s, kind, items, k, ok, out, start);
        k := k + 1;
      }
    }

    method ResendOne(s: Session, kind: Kind, items: seq<Rds.Item>, k: nat, ok: Writes, sent: seq<Sent>,
                     ghost start: Now)
        returns (out: seq<Sent>)
      requires Valid() && s in all && !s.ended && Storable(kind, s.plat) && k < |items|
      requires SoFar(s, kind, items, ok, k, start, Now(ledger, store.view, s.trans, s.calls, sent))
      modifies this`ledger, this`handed, s`tid, s`calls, s`trans, s`marks, store, store.Items(s.id)`off
      ensures Valid() && store.OwnItems(s.id)
      ensures SoFar(s, kind, items, ok, k + 1, start, Now(ledger, store.view, s.trans, s.calls, out))
    {
      ghost var now := Now(ledger, store.view, s.trans, s.calls, sent);
      hide *;
      var f := ResendItem(s, kind, items[k], ok(kind, k), sent);
      out := sent + [f];
      SoFarStep(s, kind, items, ok, k, start, now, Now(ledger, store.view, s.trans, s.calls, out));
    }

    method ResendItem(s: Session, kind: Kind, item: Rds.Item, wrote: bool, ghost sent: seq<Sent>) returns (out: Sent)
      requires Valid() && s in all && !s.ended && Storable(kind, s.plat)
      modifies this`ledger, this`handed, s`tid, s`calls, s`trans, s`marks, store, store.Items(s.id)`off
      ensures Valid() && store.OwnItems(s.id)
      ensures OneSent(s, kind, item, wrote, old(Now(ledger, store.view, s.trans, s.calls, sent)),
                Now(ledger, store.view, s.trans, s.calls, sent + [out]))
    {
      var flag := if kind == ImKind && item.webOnline then 1 else 0;
      ghost var now := Now(ledger, store.view, s.trans, s.calls, sent);
      hide Tied, TidAt, Unsent, Storable, Storager.ValidBut, Rds.Saved, OneSent;
      out := SendOrHandOver(s, kind, item.msg, 0, flag, wrote);
      ghost var next := Now(ledger, store.view, s.trans, s.calls, sent + [out]);
      OneSentIs(s, kind, item, wrote, now, next, out, if wrote then Pending(s) else Unsent(kind, s.plat));
    }

    method DrainPush(s: Session, flag: int, ok: Writes) returns (out: seq<Sent>)
      requires Valid() && s in all && !s.ended && s.plat == PLAT_ANDROID
      modifies this`ledger, this`handed, s`tid, s`calls, s`trans, s`marks, store, store.Items(s.id)`off
      ensures Valid() && store.OwnItems(s.id)
      ensures store.view == PushRedelivered(old(store.view), s.id, s.plat, ok)
      ensures Carried(s, out, PushTraffic(s, old(store.view), ok, flag, old(s.calls)))
    {
      hide Tied, Rds.Drained, Rds.Saved, Rds.HasTerminal, TidAt, Storager.ValidBut;
      out := [];
      var offPush := store.GetPushMsg(s.id, s.plat);
      if offPush.Some? {
        var f := SendOrHandOver(s, PushKind, offPush.value.msg, offPush.value.offCnt, flag, ok(PushKind, 0));
        out := [f];
      }
    }

    method DrainCallbacks(s: Session, ok: Writes) returns (out: seq<Sent>)
      requires Valid() && s in all && !s.ended && s.plat != PLAT_WEB
      modifies this`ledger, this`handed, s`tid, s`calls, s`trans, s`marks, store, store.Items(s.id)`off
      ensures Valid() && store.OwnItems(s.id)
      ensures var cb := Rds.MailOf(old(store.view), s.id, s.plat).cb;
        && store.view == Redelivered(old(store.view), s.id, s.plat, CallbackKind, cb, ok)
        && Carried(s, out, ResentTraffic(s, CallbackKind, cb, ok, old(s.calls)))
    {
      hide Tied, Rds.Drained, Rds.SavedAll, ResentTraffic, Failed, Rds.MailOf, Storager.ValidBut;
      var offCb := store.GetCallbackMsg(s.id, s.plat);
      out := Resend(s, CallbackKind, offCb, ok);
    }

    method DrainIms(s: Session, ok: Writes) returns (out: seq<Sent>)
      requires Valid() && s in all && !s.ended && s.plat != PLAT_WEB
      modifies this`ledger, this`handed, s`tid, s`calls, s`trans, s`marks, store, store.Items(s.id)`off
      ensures Valid() && store.OwnItems(s.id)
      ensures var im := Rds.MailOf(old(store.view), s.id, s.plat).im;
        && store.view == Redelivered(old(store.view), s.id, s.plat, ImKind, im, ok)
        && Carried(s, out, ResentTraffic(s, ImKind, im, ok, old(s.calls)))
    {
      hide Tied, Rds.Drained, Rds.SavedAll, ResentTraffic, Failed, Rds.MailOf, Storager.ValidBut;
      var offIm := store.GetImMsg(s.id, s.plat);
      out := Resend(s, ImKind, offIm, ok);
    }

    method DrainRest(s: Session, ok: Writes) returns (out: seq<Sent>)
      requires Valid() && s in all && !s.ended && s.plat != PLAT_WEB
      modifies this`ledger, this`handed, s`tid, s`calls, s`trans, s`marks, store, store.Items(s.id)`off
      ensures Valid() && store.OwnItems(s.id)
      ensures store.view == RestRedelivered(old(store.view), s.id, s.plat, ok)
      ensures Carried(s, out, RestTraffic(s, old(store.view), ok, old(s.calls)))
    {
      hide Tied, ResentTraffic, Redelivered, Rds.MailOf, Storager.ValidBut;
      var first := DrainCallbacks(s, ok);
      var second := DrainIms(s, ok);
      out := first + second;
    }

    /** What was kept for the terminal goes out on its new session. */
    method ProcOfflineMsg(s: Session, ok: Writes) returns (out: seq<Sent>)
      requires Valid() && s in all && !s.ended
      modifies this`ledger, this`handed, s`tid, s`calls, s`trans, s`marks, store, store.Items(s.id)`off
      ensures Valid() && store.OwnItems(s.id)
      ensures store.view == AfterDrain(old(store.view), s.id, s.plat, ok)
      ensures Carried(s, out, DrainTraffic(s, old(store.view), ok, Flag(s.id), old(s.calls)))
    {
      if s.plat == PLAT_WEB {
        return [];
      }
      var flag := Flag(s.id);
      hide Tied, RestTraffic, PushTraffic, RestRedelivered, PushRedelivered, Storager.ValidBut;
      if s.plat == PLAT_ANDROID {
        out := DrainAndroid(s, flag, ok);
      } else {
        out := DrainRest(s, ok);
      }
    }

    method DrainAndroid(s: Session, flag: int, ok: Writes) returns (out: seq<Sent>)
      requires Valid() && s in all && !s.ended && s.plat == PLAT_ANDROID
      modifies this`ledger, this`handed, s`tid, s`calls, s`trans, s`marks, store, store.Items(s.id)`off
      ensures Valid() && store.OwnItems(s.id)
      ensures store.view == RestRedelivered(PushRedelivered(old(store.view), s.id, s.plat, ok), s.id, s.plat, ok)
      ensures Carried(s, out, AndroidTraffic(s, old(store.view), ok, flag, old(s.calls)))
    {
      hide Tied, RestTraffic, PushTraffic, RestRedelivered, PushRedelivered, Storager.ValidBut;
      var first := DrainPush(s, flag, ok);
      var second := DrainRest(s, ok);
      out := first + second;
    }

    /** Whether the user's web terminal, of type 8, has a session here. */
    function Flag(id: string): (flag: int)
      reads this`sessions
      ensures flag == 0 || flag == 1
      ensures flag == 1 <==> exists k :: k in sessions && k.id == id && k.plat == 8
    {
      assert Key(id, PLAT_WEB) in sessions <==> exists k :: k in sessions && k.id == id && k.plat == 8;
      if Key(id, PLAT_WEB) in sessions then 1 else 0
    }

    // ---------- Registration ----------

    /** A new session takes its place in the maps, over any session with the same key. */
    method Install(conn: string, id: string, plat: Plat, token: string, encode: int) returns (s: Session)
      requires Tied() && conn !in ids
      modifies this`ids, this`sessions, this`all
      ensures fresh(s) && s.id == id && s.plat == plat && s.trans == [] && s.calls == 0 && !s.ended
      ensures s.encode == encode && s.conn == conn && s.token == token
      ensures Tied() && all == old(all) + {s} && View() == Register(old(View()), conn, Key(id, plat), token)
      ensures sessions == old(sessions)[Key(id, plat) := s]
    {
      s := NewSession(conn, id, plat, token, encode);
      hide Books;
      Enter(conn, Key(id, plat), s);
    }

    method NewSession(conn: string, id: string, plat: Plat, token: string, encode: int) returns (s: Session)
      requires Tied()
      modifies this`all
      ensures fresh(s) && s.id == id && s.plat == plat && s.conn == conn && s.token == token && s.encode == encode
      ensures s.trans == [] && s.calls == 0 && !s.ended
      ensures MapsOk() && Books() && all == old(all) + {s}
    {
      s := new Session(id, plat, conn, encode, token);
      all := all + {s};
      assert SessionTied(s);
      assert forall k :: k in sessions ==> old(MapOk(k));
      hide Logged, InLedger, Storable;
      forall n | 0 <= n < |ledger|
        ensures EntryTied(n)
      {
        assert old(EntryTied(n));
      }
    }

    method Enter(conn: string, k: Key, s: Session)
      requires conn !in ids && s in all && !s.ended && k == Key(s.id, s.plat) && conn == s.conn && MapsOk()
      modifies this`ids, this`sessions
      ensures MapsOk() && View() == Register(old(View()), conn, k, s.token)
      ensures sessions == old(sessions)[k := s]
    {
      sessions := sessions[k := s];
      ids := ids[conn := k];
      forall l | l in sessions
        ensures MapOk(l)
      {
        assert l != k ==> old(MapOk(l));
      }
    }

    /** Registration: `auth` is the router's answer; the code in the reply is 3 if it refused.
        A connection that already has a session gets no other. */
    method ProcRegister(conn: string, id: string, plat: Plat, token: string, encode: int, auth: bool, ok: Writes)
        returns (code: int, reported: bool, out: seq<Sent>)
      requires Valid()
      modifies this`ids, this`sessions, this`all, this`ledger, this`handed, store, store.Items(id)`off
      ensures Valid() && code == (if auth then 0 else 3) && (reported <==> auth && conn !in old(ids))
      ensures View() == if auth then Register(old(View()), conn, Key(id, plat), token) else old(View())
      ensures !reported ==> ledger == old(ledger) && store.view == old(store.view) && out == []
      ensures reported ==> Key(id, plat) in sessions && fresh(sessions[Key(id, plat)])
      ensures reported ==>
        var s := sessions[Key(id, plat)]; s.encode == encode && s.conn == conn && s.token == token
      ensures forall f :: f in out ==> f.encode == encode && f.conn == conn
      ensures reported ==> store.view == AfterDrain(old(store.view), id, plat, ok)
      ensures reported ==>
        var s := sessions[Key(id, plat)]; var t := DrainTraffic(s, old(store.view), ok, Flag(id), 0);
        ledger == old(ledger) + t.entries && out == t.frames && s.trans == t.trans
    {
      code, reported, out := if auth then 0 else 3, false, [];
      if auth && conn !in ids {
        hide Tied, AfterDrain, DrainTraffic, View, Register, Storager.ValidBut;
        out := RegisterNew(conn, id, plat, token, encode, ok);
        reported := true;
      }
    }

    method RegisterNew(conn: string, id: string, plat: Plat, token: string, encode: int, ok: Writes)
        returns (out: seq<Sent>)
      requires Valid() && conn !in ids
      modifies this`ids, this`sessions, this`all, this`ledger, this`handed, store, store.Items(id)`off
      ensures Valid() && View() == Register(old(View()), conn, Key(id, plat), token)
      ensures Key(id, plat) in sessions && fresh(sessions[Key(id, plat)])
      ensures var s := sessions[Key(id, plat)]; s.encode == encode && s.conn == conn && s.token == token
      ensures forall f :: f in out ==> f.encode == encode && f.conn == conn
      ensures store.view == AfterDrain(old(store.view), id, plat, ok)
      ensures var s := sessions[Key(id, plat)]; var t := DrainTraffic(s, old(store.view), ok, Flag(id), 0);
        ledger == old(ledger) + t.entries && out == t.frames && s.trans == t.trans
    {
      hide Tied, AfterDrain, DrainTraffic, View, Register, Storager.ValidBut;
      var s := Admit(conn, id, plat, token, encode);
      FramesGoTo(s, store.view, ok, Flag(id), 0);
      out := ProcOfflineMsg(s, ok);
    }

    /** A new session enters the maps; the store is not touched. */
    method Admit(conn: string, id: string, plat: Plat, token: string, encode: int) returns (s: Session)
      requires Valid() && conn !in ids
      modifies this`ids, this`sessions, this`all
      ensures fresh(s) && s.id == id && s.plat == plat && s.trans == [] && s.calls == 0 && !s.ended
      ensures s.encode == encode && s.conn == conn && s.token == token
      ensures Valid() && s in all && View() == Register(old(View()), conn, Key(id, plat), token)
      ensures sessions == old(sessions)[Key(id, plat) := s]
    {
      hide Tied, View, Register;
      s := Install(conn, id, plat, token, encode);
    }
  }

  // ---------- What a drain sends ----------

  /** New entries of the books, frames tried on the connection, and new transactions. */
  datatype Traffic = Traffic(entries: seq<Entry>, frames: seq<Sent>, trans: seq<Trans>)

  function Then(a: Traffic, b: Traffic): Traffic
  {
    Traffic(a.entries + b.entries, a.frames + b.frames, a.trans + b.trans)
  }

  /** One frame for each drained message, under consecutive ids. */
  function Frames(s: Session, kind: Kind, items: seq<Rds.Item>, calls: nat): (r: seq<Sent>)
    ensures |r| == |items|
  {
    seq(|items|, i requires 0 <= i < |items| =>
      Sent(s.conn, s.encode, kind, TidAt(calls + i + 1), items[i].msg, 0,
        if kind == ImKind && items[i].webOnline then 1 else 0))
  }

  /** One transaction for each of the first `n` that was written, in order. */
  function Opened(kind: Kind, items: seq<Rds.Item>, ok: Writes, calls: nat, n: nat): seq<Trans>
    requires n <= |items|
  {
    if n == 0 then []
    else
      var r := Opened(kind, items, ok, calls, n - 1);
      if ok(kind, n - 1) then r + [Trans(TidAt(calls + n), kind, items[n - 1].msg, true)] else r
  }

  /** The books after drained messages were sent to a session. */
  function Resent(s: Session, kind: Kind, items: seq<Rds.Item>, ok: Writes): (r: seq<Entry>)
    ensures |r| == |items|
  {
    seq(|items|, i requires 0 <= i < |items| =>
      Entry(s.id, s.plat, kind, items[i].msg, if ok(kind, i) then Pending(s) else Handed))
  }

  function ResentTraffic(s: Session, kind: Kind, items: seq<Rds.Item>, ok: Writes, calls: nat): Traffic
  {
    Traffic(Resent(s, kind, items, ok), Frames(s, kind, items, calls), Opened(kind, items, ok, calls, |items|))
  }

  /** An empty push, to a terminal that the store knows. */
  function PushTraffic(s: Session, v: map<string, Rds.User>, ok: Writes, flag: int, calls: nat): Traffic
  {
    if Rds.HasTerminal(v, s.id, s.plat) then
      Traffic([Entry(s.id, s.plat, PushKind, "", if ok(PushKind, 0) then Pending(s) else Handed)],
        [Sent(s.conn, s.encode, PushKind, TidAt(calls + 1), "", 0, flag)],
        if ok(PushKind, 0) then [Trans(TidAt(calls + 1), PushKind, "", true)] else [])
    else Traffic([], [], [])
  }

  function RestTraffic(s: Session, v: map<string, Rds.User>, ok: Writes, calls: nat): Traffic
  {
    var cb := Rds.MailOf(v, s.id, s.plat).cb;
    var w := Redelivered(v, s.id, s.plat, CallbackKind, cb, ok);
    var first := ResentTraffic(s, CallbackKind, cb, ok, calls);
    Then(first, ResentTraffic(s, ImKind, Rds.MailOf(w, s.id, s.plat).im, ok, calls + |first.frames|))
  }

  function AndroidTraffic(s: Session, v: map<string, Rds.User>, ok: Writes, flag: int, calls: nat): Traffic
  {
    var first := PushTraffic(s, v, ok, flag, calls);
    Then(first, RestTraffic(s, PushRedelivered(v, s.id, s.plat, ok), ok, calls + |first.frames|))
  }

  function DrainTraffic(s: Session, v: map<string, Rds.User>, ok: Writes, flag: int, calls: nat): Traffic
  {
    if s.plat == PLAT_WEB then Traffic([], [], [])
    else if s.plat == PLAT_ANDROID then AndroidTraffic(s, v, ok, flag, calls)
    else RestTraffic(s, v, ok, calls)
  }

  /** All frames of a drain go to the session's connection, in the encoding it registered with. */
  lemma FramesGoTo(s: Session, v: map<string, Rds.User>, ok: Writes, flag: int, calls: nat)
    ensures forall f :: f in DrainTraffic(s, v, ok, flag, calls).frames ==> f.encode == s.encode && f.conn == s.conn
  {
    hide Opened, Resent, Redelivered, PushRedelivered, Rds.MailOf, TidAt;
  }

  /** One frame for each callback, without a flag, and then one for each instant message, with the
      flag it was saved under, all under consecutive ids. */
  predicate RestAre(fs: seq<Sent>, s: Session, m: Rds.Mail, calls: nat)
  {
    && |fs| == |m.cb| + |m.im|
    && (forall i :: 0 <= i < |m.cb| ==>
          fs[i] == Sent(s.conn, s.encode, CallbackKind, TidAt(calls + i + 1), m.cb[i].msg, 0, 0))
    && (forall i :: 0 <= i < |m.im| ==>
          fs[|m.cb| + i] == Sent(s.conn, s.encode, ImKind, TidAt(calls + |m.cb| + i + 1), m.im[i].msg, 0,
                              if m.im[i].webOnline then 1 else 0))
  }

  lemma FramesAreRest(s: Session, m: Rds.Mail, calls: nat)
    ensures RestAre(Frames(s, CallbackKind, m.cb, calls) + Frames(s, ImKind, m.im, calls + |m.cb|), s, m, calls)
  {
    hide TidAt;
  }

  lemma RestFrames(s: Session, v: map<string, Rds.User>, ok: Writes, calls: nat)
    requires Rds.HasTerminal(v, s.id, s.plat) && Rds.MailOk(Rds.MailOf(v, s.id, s.plat))
    ensures RestAre(RestTraffic(s, v, ok, calls).frames, s, Rds.MailOf(v, s.id, s.plat), calls)
  {
    var m := Rds.MailOf(v, s.id, s.plat);
    CallbacksLossless(v, s.id, s.plat, ok);
    assert RestTraffic(s, v, ok, calls).frames
        == Frames(s, CallbackKind, m.cb, calls) + Frames(s, ImKind, m.im, calls + |m.cb|);
    hide *;
    FramesAreRest(s, m, calls);
  }

  lemma PushFirst(s: Session, v: map<string, Rds.User>, ok: Writes, flag: int, calls: nat)
    requires Rds.HasTerminal(v, s.id, s.plat) && s.plat == PLAT_ANDROID
    ensures DrainTraffic(s, v, ok, flag, calls).frames
         == [Sent(s.conn, s.encode, PushKind, TidAt(calls + 1), "", 0, flag)]
            + RestTraffic(s, PushRedelivered(v, s.id, s.plat, ok), ok, calls + 1).frames
  {
    hide TidAt, PushRedelivered, RestTraffic, Rds.HasTerminal;
  }

  /** Draining the push box leaves the others as they were. */
  lemma RestKept(v: map<string, Rds.User>, id: string, plat: Plat, ok: Writes)
    requires Rds.HasTerminal(v, id, plat) && Rds.MailOk(Rds.MailOf(v, id, plat))
    ensures var m, w := Rds.MailOf(v, id, plat), PushRedelivered(v, id, plat, ok);
      var n := Rds.MailOf(w, id, plat);
      Rds.HasTerminal(w, id, plat) && Rds.MailOk(n) && n.cb == m.cb && n.im == m.im
  {
    PushDrained(v, id, plat, ok);
    hide Rds.MailOf, PushRedelivered, Rds.HasTerminal, Rds.WebOnline;
  }

  lemma SameRest(fs: seq<Sent>, s: Session, m: Rds.Mail, n: Rds.Mail, calls: nat)
    requires n.cb == m.cb && n.im == m.im && RestAre(fs, s, n, calls)
    ensures RestAre(fs, s, m, calls)
  {
  }

  /** The frames of a drain of the old mailbox, one by one: for an Android terminal first an empty
      push, with the web terminal's flag of now. */
  lemma DrainedFrames(s: Session, v: map<string, Rds.User>, ok: Writes, flag: int, calls: nat)
    requires Rds.HasTerminal(v, s.id, s.plat) && Rds.MailOk(Rds.MailOf(v, s.id, s.plat)) && s.plat != 8
    ensures var m, fs := Rds.MailOf(v, s.id, s.plat), DrainTraffic(s, v, ok, flag, calls).frames;
      if s.plat == 1 then
        && fs != [] && fs[0] == Sent(s.conn, s.encode, PushKind, TidAt(calls + 1), "", 0, flag)
        && RestAre(fs[1..], s, m, calls + 1)
      else RestAre(fs, s, m, calls)
  {
    var m, fs := Rds.MailOf(v, s.id, s.plat), DrainTraffic(s, v, ok, flag, calls).frames;
    if s.plat == PLAT_ANDROID {
      hide *;
      var w := PushRedelivered(v, s.id, s.plat, ok);
      var rest := RestTraffic(s, w, ok, calls + 1).frames;
      RestKept(v, s.id, s.plat, ok);
      RestFrames(s, w, ok, calls + 1);
      SameRest(rest, s, m, Rds.MailOf(w, s.id, s.plat), calls + 1);
      PushFirst(s, v, ok, flag, calls);
      assert fs[1..] == rest;
    } else {
      assert fs == RestTraffic(s, v, ok, calls).frames;
      hide *;
      RestFrames(s, v, ok, calls);
    }
  }

  function Messages(ts: seq<Trans>): (r: seq<string>)
    ensures |r| == |ts|
  {
    seq(|ts|, i requires 0 <= i < |ts| => ts[i].msg)
  }

  lemma {:induction false} OpenedMessages(kind: Kind, items: seq<Rds.Item>, ok: Writes, calls: nat, n: nat)
    requires n <= |items|
    ensures Messages(Opened(kind, items, ok, calls, n)) == Written(items, kind, ok, n)
  {
    if n > 0 {
      OpenedMessages(kind, items, ok, calls, n - 1);
      assert Written(items, kind, ok, n - 1) + [] == Written(items, kind, ok, n - 1);
    }
  }

  lemma MessagesConcat(a: seq<Trans>, b: seq<Trans>)
    ensures Messages(a + b) == Messages(a) + Messages(b)
  {
  }

  lemma RestMessages(s: Session, v: map<string, Rds.User>, ok: Writes, calls: nat)
    requires Rds.HasTerminal(v, s.id, s.plat) && Rds.MailOk(Rds.MailOf(v, s.id, s.plat))
    ensures var m := Rds.MailOf(v, s.id, s.plat);
      Messages(RestTraffic(s, v, ok, calls).trans)
      == Written(m.cb, CallbackKind, ok, |m.cb|) + Written(m.im, ImKind, ok, |m.im|)
  {
    var m := Rds.MailOf(v, s.id, s.plat);
    CallbacksLossless(v, s.id, s.plat, ok);
    hide Redelivered, Rds.MailOf, Rds.HasTerminal, Opened, Written, Messages;
    var a := Opened(CallbackKind, m.cb, ok, calls, |m.cb|);
    var b := Opened(ImKind, m.im, ok, calls + |m.cb|, |m.im|);
    MessagesConcat(a, b);
    OpenedMessages(CallbackKind, m.cb, ok, calls, |m.cb|);
    OpenedMessages(ImKind, m.im, ok, calls + |m.cb|, |m.im|);
  }

  /** The new transactions of a drain carry, in order, exactly the messages of the old mailbox
      that could be written: the empty push of an Android terminal, callbacks, instant messages. */
  lemma DrainedInOrder(s: Session, v: map<string, Rds.User>, ok: Writes, flag: int, calls: nat)
    requires Rds.HasTerminal(v, s.id, s.plat) && Rds.MailOk(Rds.MailOf(v, s.id, s.plat)) && s.plat != PLAT_WEB
    ensures var m := Rds.MailOf(v, s.id, s.plat);
      Messages(DrainTraffic(s, v, ok, flag, calls).trans)
      == (if s.plat == PLAT_ANDROID && ok(PushKind, 0) then [""] else [])
         + (Written(m.cb, CallbackKind, ok, |m.cb|) + Written(m.im, ImKind, ok, |m.im|))
  {
    if s.plat == PLAT_ANDROID {
      PushDrained(v, s.id, s.plat, ok);
      var first := PushTraffic(s, v, ok, flag, calls);
      var w := PushRedelivered(v, s.id, s.plat, ok);
      assert Messages(first.trans) == if ok(PushKind, 0) then [""] else [];
      hide Rds.MailOf, PushRedelivered, PushTraffic, RestTraffic, Messages, Written;
      MessagesConcat(first.trans, RestTraffic(s, w, ok, calls + |first.frames|).trans);
      RestMessages(s, w, ok, calls + |first.frames|);
    } else {
      RestMessages(s, v, ok, calls);
      hide Written, RestTraffic, Messages;
      assert forall r: seq<string> :: [] + r == r;
    }
  }

  // ---------- How far resending has come ----------

  /** The books, the users, the session's transactions and ids, and the frames tried. */
  datatype Now = Now(books: seq<Entry>, users: map<string, Rds.User>, trans: seq<Trans>, calls: nat, frames: seq<Sent>)

  ghost predicate Grown<T>(start: seq<T>, part: seq<T>, now: seq<T>)
  {
    now == start + part
  }

  ghost predicate SoFar(s: Session, kind: Kind, items: seq<Rds.Item>, ok: Writes, k: nat, start: Now, now: Now)
    requires k <= |items|
  {
    && Grown(start.books, Resent(s, kind, items, ok)[..k], now.books)
    && now.users == Rds.SavedAll(start.users, s.id, s.plat, kind, Failed(items, kind, ok, k))
    && Grown(start.trans, Opened(kind, items, ok, start.calls, k), now.trans)
    && now.calls == start.calls + k
    && Grown(start.frames, Frames(s, kind, items, start.calls)[..k], now.frames)
  }

  /** One drained message was sent: it is pending if it was written, and saved again if not. */
  ghost predicate OneSent(s: Session, kind: Kind, item: Rds.Item, wrote: bool, now: Now, next: Now)
  {
    var f := Sent(s.conn, s.encode, kind, TidAt(now.calls + 1), item.msg, 0,
      if kind == ImKind && item.webOnline then 1 else 0);
    && next.books == now.books + [Entry(s.id, s.plat, kind, item.msg, if wrote then Pending(s) else Handed)]
    && next.users == (if wrote then now.users else Rds.Saved(now.users, s.id, s.plat, kind, item.msg))
    && next.trans == (if wrote then now.trans + [Trans(f.tid, kind, item.msg, true)] else now.trans)
    && next.calls == now.calls + 1 && next.frames == now.frames + [f]
  }

  lemma OneSentIs(s: Session, kind: Kind, item: Rds.Item, wrote: bool, now: Now, next: Now, f: Sent, fate: Fate)
    requires Storable(kind, s.plat) && fate == if wrote then Pending(s) else Unsent(kind, s.plat)
    requires f == Sent(s.conn, s.encode, kind, TidAt(next.calls), item.msg, 0,
                    if kind == ImKind && item.webOnline then 1 else 0)
    requires next.books == now.books + [Entry(s.id, s.plat, kind, item.msg, fate)]
    requires next.users == if fate == Handed then Rds.Saved(now.users, s.id, s.plat, kind, item.msg) else now.users
    requires next.trans == if wrote then now.trans + [Trans(f.tid, kind, item.msg, true)] else now.trans
    requires next.calls == now.calls + 1 && next.frames == now.frames + [f]
    ensures OneSent(s, kind, item, wrote, now, next)
  {
    hide TidAt, Rds.Saved;
  }

  lemma SoFarStart(s: Session, kind: Kind, items: seq<Rds.Item>, ok: Writes, start: Now)
    ensures SoFar(s, kind, items, ok, 0, start, start)
  {
  }

  lemma SoFarStep(s: Session, kind: Kind, items: seq<Rds.Item>, ok: Writes, k: nat, start: Now, now: Now, next: Now)
    requires k < |items|
    requires SoFar(s, kind, items, ok, k, start, now)
    requires OneSent(s, kind, items[k], ok(kind, k), now, next)
    ensures SoFar(s, kind, items, ok, k + 1, start, next)
  {
    hide Resent, Frames, Opened, Failed, Rds.SavedAll, Rds.Saved, TidAt, Grown, Storable;
    UsersStep(s, kind, items, ok, k, start.users, now.users);
    BooksStep(s, kind, items, ok, k, start.books, now.books, next.books);
    FramesStep(s, kind, items, start.calls, k, start.frames, now.frames, next.frames);
    OpenedStep(kind, items, ok, start.calls, k, start.trans, now.trans, next.trans);
  }

  lemma BooksStep(s: Session, kind: Kind, items: seq<Rds.Item>, ok: Writes, k: nat,
                  start: seq<Entry>, now: seq<Entry>, next: seq<Entry>)
    requires k < |items| && Grown(start, Resent(s, kind, items, ok)[..k], now)
    requires next == now + [Entry(s.id, s.plat, kind, items[k].msg, if ok(kind, k) then Pending(s) else Handed)]
    ensures Grown(start, Resent(s, kind, items, ok)[..k + 1], next)
  {
    var a := Resent(s, kind, items, ok);
    assert next == now + [a[k]];
    hide Resent, Grown;
    GrowsBy(start, a, k, now);
  }

  lemma FramesStep(s: Session, kind: Kind, items: seq<Rds.Item>, calls: nat, k: nat,
                   start: seq<Sent>, now: seq<Sent>, next: seq<Sent>)
    requires k < |items| && Grown(start, Frames(s, kind, items, calls)[..k], now)
    requires next == now + [Sent(s.conn, s.encode, kind, TidAt(calls + k + 1), items[k].msg, 0,
                               if kind == ImKind && items[k].webOnline then 1 else 0)]
    ensures Grown(start, Frames(s, kind, items, calls)[..k + 1], next)
  {
    var a := Frames(s, kind, items, calls);
    hide TidAt;
    assert next == now + [a[k]];
    hide Frames, Grown;
    GrowsBy(start, a, k, now);
  }

  lemma OpenedStep(kind: Kind, items: seq<Rds.Item>, ok: Writes, calls: nat, k: nat,
                   start: seq<Trans>, now: seq<Trans>, next: seq<Trans>)
    requires k < |items| && Grown(start, Opened(kind, items, ok, calls, k), now)
    requires next == if ok(kind, k) then now + [Trans(TidAt(calls + k + 1), kind, items[k].msg, true)] else now
    ensures Grown(start, Opened(kind, items, ok, calls, k + 1), next)
  {
    hide TidAt, Grown;
    OneMoreGrown(start, Opened(kind, items, ok, calls, k), now, Trans(TidAt(calls + k + 1), kind, items[k].msg, true));
  }

  lemma OneMoreGrown<T>(start: seq<T>, part: seq<T>, now: seq<T>, x: T)
    ensures Grown(start, part, now) ==> Grown(start, part + [x], now + [x])
  {
    assert start + part + [x] == start + (part + [x]);
  }

  lemma GrowsBy<T>(start: seq<T>, a: seq<T>, k: nat, now: seq<T>)
    requires k < |a|
    ensures Grown(start, a[..k], now) ==> Grown(start, a[..k + 1], now + [a[k]])
  {
    assert a[..k + 1] == a[..k] + [a[k]];
    OneMoreGrown(start, a[..k], now, a[k]);
  }

  lemma UsersStep(s: Session, kind: Kind, items: seq<Rds.Item>, ok: Writes, k: nat,
                  v: map<string, Rds.User>, w: map<string, Rds.User>)
    requires k < |items| && w == Rds.SavedAll(v, s.id, s.plat, kind, Failed(items, kind, ok, k))
    ensures Rds.SavedAll(v, s.id, s.plat, kind, Failed(items, kind, ok, k + 1))
         == if ok(kind, k) then w else Rds.Saved(w, s.id, s.plat, kind, items[k].msg)
  {
    Rds.SavedAllAppend(v, s.id, s.plat, kind, Failed(items, kind, ok, k), items[k].msg);
    assert Failed(items, kind, ok, k) + [] == Failed(items, kind, ok, k);
    hide Rds.SavedAll, Rds.Saved;
  }

  lemma SoFarEnd(s: Session, kind: Kind, items: seq<Rds.Item>, ok: Writes, start: Now, now: Now)
    requires SoFar(s, kind, items, ok, |items|, start, now)
    ensures now.users == Rds.SavedAll(start.users, s.id, s.plat, kind, Failed(items, kind, ok, |items|))
    ensures var t := ResentTraffic(s, kind, items, ok, start.calls);
      && now.books == start.books + t.entries && now.frames == start.frames + t.frames
      && now.trans == start.trans + t.trans && now.calls == start.calls + |t.frames|
  {
    assert Resent(s, kind, items, ok)[..|items|] == Resent(s, kind, items, ok);
    assert Frames(s, kind, items, start.calls)[..|items|] == Frames(s, kind, items, start.calls);
  }

  /** The messages pending in a session become abandoned. */
  function AllAbandoned(ledger: seq<Entry>, s: Session): (r: seq<Entry>)
    ensures |r| == |ledger|
  {
    seq(|ledger|, i requires 0 <= i < |ledger| =>
      if ledger[i].fate == Pending(s) then ledger[i].(fate := Abandoned(s)) else ledger[i])
  }

  lemma StillCarried(marks: seq<Mark>, i: nat, n: nat)
    requires i < |marks| && marks[i].message != n && exists k :: 0 <= k < |marks| && marks[k].message == n
    ensures exists k :: 0 <= k < |Removed(marks, i)| && Removed(marks, i)[k].message == n
  {
    var k :| 0 <= k < |marks| && marks[k].message == n;
    RemovedKeeps(marks, i);
    hide Removed;
    assert Removed(marks, i)[if k < i then k else k - 1].message == n;
  }

  predicate Cut(marks: seq<Mark>, trans: seq<Trans>, marks': seq<Mark>, trans': seq<Trans>, i: nat)
  {
    i < |marks| == |trans| && marks' == Removed(marks, i) && trans' == Removed(trans, i)
  }

  predicate Settles(ledger: seq<Entry>, ledger': seq<Entry>, n: nat)
  {
    n < |ledger| == |ledger'| && ledger' == ledger[n := ledger'[n]]
  }

  predicate Concerns(e: Entry, s: Session)
  {
    e.fate == Pending(s) || e.fate == Abandoned(s)
  }
}
