/** The router's handlers: login events, state notifications, authentication and downward
    messages (router/procNsq.go, router/procRpc.go). */
module RouterModel {
  import opened Prelude
  import opened Terminals
  import opened Rds
  import opened StoragerModel
  import opened Logins
  import opened FanOut
  import opened Balancer

  // ---------- Deleting from a slice while ranging over it ----------

  /** The calls of one iteration for a displaced terminal. */
  method KickDisplaced(v: Session, p: Plat, up: bool) returns (calls: seq<Call>)
    ensures calls == KickCalls(v.Value(), p, up)
  {
    calls := [];
    if v.online && v.login && up {
      calls := [Kick(v.id, v.plat, v.authCode, if v.plat == p then KICK_REASON_REPEAT else KICK_REASON_MUTEX)];
      if v.plat == PLAT_IOS {
        calls := calls + [Notice(v.id, v.plat, v.iosToken)];
      }
    }
  }

  /** `append(s[:i], s[i+1:]...)` on a slice of length `len`: the tail moves down inside the
      shared backing array, whose last slot keeps its old content. */
  method Close(back: array<Session>, i: nat, len: nat, ghost olds: seq<Session>)
    requires i < len == back.Length && back[..] == olds
    modifies back
    ensures back[..len - 1] == olds[..i] + olds[i + 1..]
    ensures back[len - 1] == olds[len - 1]
  {
    forall k | i <= k < len - 1 {
      back[k] := back[k + 1];
    }
  }

  method Renew(v: Session, msg: LoginMsg, ghost olds: seq<Session>, ghost d: nat, ghost ts: seq<Terminal>)
    requires d < |olds| && olds[d] == v && Values(olds) == ts
    requires forall i, j :: 0 <= i < j < |olds| ==> olds[i] != olds[j]
    modifies v`authCode, v`iosToken, v`login
    ensures Values(olds) == ts[d := Renewed(ts[d], msg)]
  {
    v.authCode := msg.code;
    v.iosToken := msg.deviceToken;
    v.login := msg.login;
  }

  /** State of the range loop before it visits position `i`: nothing has happened up to the
      displaced terminal at `d`; from then on that terminal is renewed or gone. */
  ghost predicate Scanned(back: array<Session>, i: nat, len: nat, find: bool, msg: LoginMsg,
                          olds: seq<Session>, ts: seq<Terminal>)
    requires i <= |olds| == |ts| == back.Length
    reads back, olds
  {
    var d := ClashAt(ts, msg.termtype);
    if i <= d then len == |ts| && !find && back[..] == olds && Values(olds) == ts
    else if ts[d].plat == msg.termtype then
      len == |ts| && find && back[..] == olds && Values(olds) == ts[d := Renewed(ts[d], msg)]
    else
      && len == |ts| - 1 && !find && Values(olds) == ts
      && back[..len] == olds[..d] + olds[d + 1..] && back[len] == olds[len]
  }

  ghost function ScannedCalls(i: nat, ts: seq<Terminal>, p: Plat, up: bool): seq<Call>
    requires i <= |ts|
  {
    var d := ClashAt(ts, p);
    if i <= d then [] else KickCalls(ts[d], p, up)
  }

  /** What the loop meets at position `i`: the displaced terminal itself exactly at `d`, and
      otherwise a terminal it leaves alone. Past a deletion, the one that moved into the gap
      is skipped and the last one is seen again. */
  lemma VisitedTerminal(back: array<Session>, i: nat, len: nat, find: bool, msg: LoginMsg,
                        olds: seq<Session>, ts: seq<Terminal>)
    requires |olds| == |ts| == back.Length && i < back.Length && WellFormed(ts)
    requires Scanned(back, i, len, find, msg, olds, ts)
    ensures var d := ClashAt(ts, msg.termtype);
      && (i == d ==> back[i] == olds[i] && back[i].Value() == ts[i] && Clashes(ts[i], msg.termtype))
      && (i != d ==> back[i].plat != msg.termtype && !Exclusive(back[i].plat, msg.termtype))
      && (i != d ==> Scanned(back, i + 1, len, find, msg, olds, ts))
  {
    hide WellFormed, Exclusive;
    var d := ClashAt(ts, msg.termtype);
    if i <= d {
      BeforeClash(back, i, olds, ts, msg.termtype);
    } else if ts[d].plat == msg.termtype {
      AfterRenewal(back, i, olds, ts, msg);
    } else {
      AfterDeletion(back, i, olds, ts, msg.termtype);
    }
  }

  lemma BeforeClash(back: array<Session>, i: nat, olds: seq<Session>, ts: seq<Terminal>, p: Plat)
    requires |olds| == |ts| == back.Length && i < |ts| && back[..] == olds && Values(olds) == ts
    ensures back[i] == olds[i] && back[i].Value() == ts[i]
  {
    assert back[i] == back[..][i];
    assert olds[i].Value() == Values(olds)[i];
  }

  lemma AfterRenewal(back: array<Session>, i: nat, olds: seq<Session>, ts: seq<Terminal>, msg: LoginMsg)
    requires |olds| == |ts| == back.Length && WellFormed(ts)
    requires var d := ClashAt(ts, msg.termtype);
      d < i < |ts| && back[..] == olds && Values(olds) == ts[d := Renewed(ts[d], msg)]
    ensures back[i].plat != msg.termtype && !Exclusive(back[i].plat, msg.termtype)
  {
    OnlyClash(ts, msg.termtype);
    hide WellFormed, Exclusive;
    assert olds[i].Value() == Values(olds)[i] == ts[i];
    assert back[i] == back[..][i];
    assert !Clashes(ts[i], msg.termtype);
  }

  lemma AfterDeletion(back: array<Session>, i: nat, olds: seq<Session>, ts: seq<Terminal>, p: Plat)
    requires |olds| == |ts| == back.Length && WellFormed(ts) && Values(olds) == ts
    requires var d := ClashAt(ts, p);
      && d < i < |ts|
      && back[..|ts| - 1] == olds[..d] + olds[d + 1..] && back[|ts| - 1] == olds[|ts| - 1]
    ensures back[i].plat != p && !Exclusive(back[i].plat, p)
  {
    OnlyClash(ts, p);
    hide WellFormed, Exclusive;
    var k := if i == |ts| - 1 then i else i + 1;
    if i < |ts| - 1 {
      assert back[i] == back[..|ts| - 1][i];
    }
    assert olds[k].Value() == Values(olds)[k];
    assert !Clashes(ts[k], p);
  }

  method VisitSame(v: Session, back: array<Session>, i: nat, len: nat, find: bool, msg: LoginMsg,
                   ghost olds: seq<Session>, ghost ts: seq<Terminal>)
      returns (find': bool)
    requires |olds| == |ts| == back.Length && i == ClashAt(ts, msg.termtype) < back.Length
    requires Scanned(back, i, len, find, msg, olds, ts)
    requires v == olds[i] && ts[i].plat == msg.termtype
    requires forall i, j :: 0 <= i < j < |olds| ==> olds[i] != olds[j]
    modifies v
    ensures Scanned(back, i + 1, len, find', msg, olds, ts)
  {
    find' := true;
    Renew(v, msg, olds, i, ts);
  }

  method VisitCounterpart(back: array<Session>, i: nat, len: nat, find: bool, msg: LoginMsg,
                          ghost olds: seq<Session>, ghost ts: seq<Terminal>)
      returns (len': nat)
    requires |olds| == |ts| == back.Length && i == ClashAt(ts, msg.termtype) < back.Length
    requires Scanned(back, i, len, find, msg, olds, ts) && ts[i].plat != msg.termtype
    modifies back
    ensures Scanned(back, i + 1, len', find, msg, olds, ts)
  {
    Close(back, i, len, olds);
    len' := len - 1;
  }

  /** One iteration of the range loop. */
  method Visit(back: array<Session>, i: nat, len: nat, find: bool, msg: LoginMsg, up: bool,
               ghost olds: seq<Session>, ghost ts: seq<Terminal>)
      returns (len': nat, find': bool, calls: seq<Call>)
    requires |olds| == |ts| == back.Length && WellFormed(ts) && i < back.Length
    requires Scanned(back, i, len, find, msg, olds, ts)
    requires forall i, j :: 0 <= i < j < |olds| ==> olds[i] != olds[j]
    modifies back, olds
    ensures Scanned(back, i + 1, len', find', msg, olds, ts)
    ensures ScannedCalls(i, ts, msg.termtype, up) + calls == ScannedCalls(i + 1, ts, msg.termtype, up)
  {
    VisitedTerminal(back, i, len, find, msg, olds, ts);
    hide Scanned, Values, WellFormed, KickCalls;
    len', find', calls := len, find, [];
    var v := back[i];
    if v.plat == msg.termtype {
      calls := KickDisplaced(v, msg.termtype, up);
      find' := VisitSame(v, back, i, len, find, msg, olds, ts);
    } else if Exclusive(v.plat, msg.termtype) {
      calls := KickDisplaced(v, msg.termtype, up);
      len' := VisitCounterpart(back, i, len, find, msg, olds, ts);
    }
  }

  /** The range loop of a login event. The range covers the original length of the slice, so
      after a deletion it skips one terminal and sees the last one twice. */
  method RangeLogin(back: array<Session>, msg: LoginMsg, up: bool, ghost olds: seq<Session>, ghost ts: seq<Terminal>)
      returns (len: nat, find: bool, calls: seq<Call>)
    requires back[..] == olds && Values(olds) == ts && WellFormed(ts)
    requires forall i, j :: 0 <= i < j < |olds| ==> olds[i] != olds[j]
    modifies back, olds
    ensures calls == LoginCalls(ts, msg.termtype, up)
    ensures Scanned(back, back.Length, len, find, msg, olds, ts)
  {
    len, find, calls := back.Length, false, [];
    var i := 0;
    hide Scanned, WellFormed;
    assert Scanned(back, 0, len, find, msg, olds, ts);
    while i < back.Length
      invariant i <= back.Length
      invariant Scanned(back, i, len, find, msg, olds, ts)
      invariant calls == ScannedCalls(i, ts, msg.termtype, up)
    {
      var more;
      len, find, more := Visit(back, i, len, find, msg, up, olds, ts);
      calls := calls + more;
      i := i + 1;
    }
  }

  lemma BacksParts(id: string, s: Sessions, u: User)
    requires s.id == id && Values(s.sess) == u.sess && s.cometId == u.cometId && u.id == id
    requires forall i :: 0 <= i < |s.sess| ==> s.sess[i].id == id
    requires forall i, j :: 0 <= i < j < |s.sess| ==> s.sess[i] != s.sess[j]
    ensures Backs(id, s, u)
  {
  }

  lemma RemoveDistinct(s: seq<Session>, d: nat)
    requires d < |s| && forall i, j :: 0 <= i < j < |s| ==> s[i] != s[j]
    ensures forall i, j :: 0 <= i < j < |Removed(s, d)| ==> Removed(s, d)[i] != Removed(s, d)[j]
    ensures forall x :: x in Removed(s, d) ==> x in s
  {
  }

  lemma RemoveValues(s: seq<Session>, d: nat)
    requires d < |s|
    ensures Values(Removed(s, d)) == Removed(Values(s), d)
  {
  }

  lemma GapResult(olds: seq<Session>, ts: seq<Terminal>, msg: LoginMsg)
    requires WellFormed(ts) && Values(olds) == ts
    requires var d := ClashAt(ts, msg.termtype); d < |ts| && ts[d].plat != msg.termtype
    ensures LoginList(ts, msg) == Values(Removed(olds, ClashAt(ts, msg.termtype))) + [Fresh(msg)]
  {
    LoginListCounterpart(ts, msg);
    RemoveValues(olds, ClashAt(ts, msg.termtype));
    hide WellFormed, Exclusive, LoginList, Values, Fresh, Clashes, ClashAt;
  }

  /** The objects left in the slice carry the values left in the list. */
  lemma ScanResult(back: array<Session>, len: nat, find: bool, msg: LoginMsg, olds: seq<Session>, ts: seq<Terminal>)
    requires |olds| == |ts| == back.Length && WellFormed(ts)
    requires Scanned(back, back.Length, len, find, msg, olds, ts)
    requires forall i, j :: 0 <= i < j < |olds| ==> olds[i] != olds[j]
    ensures len <= back.Length
    ensures LoginList(ts, msg) == if find then Values(back[..len]) else Values(back[..len]) + [Fresh(msg)]
    ensures forall x :: x in back[..len] ==> x in olds
    ensures forall i, j :: 0 <= i < j < len ==> back[..len][i] != back[..len][j]
  {
    var d := ClashAt(ts, msg.termtype);
    if d < |ts| && ts[d].plat != msg.termtype {
      assert back[..len] == Removed(olds, d);
      GapResult(olds, ts, msg);
      RemoveDistinct(olds, d);
      hide WellFormed, LoginList, Values, Fresh, Removed;
    } else {
      LoginListCases(ts, msg);
      hide WellFormed, LoginList, Values, Fresh, Renewed;
      assert back[..len] == olds;
    }
  }

  /** The handler's work on the slice it found. */
  method Rewritten(list: seq<Session>, msg: LoginMsg, up: bool, ghost ts: seq<Terminal>)
      returns (r: seq<Session>, calls: seq<Call>)
    requires Values(list) == ts && WellFormed(ts)
    requires forall x :: x in list ==> x.id == msg.uid
    requires forall i, j :: 0 <= i < j < |list| ==> list[i] != list[j]
    modifies list
    ensures calls == LoginCalls(ts, msg.termtype, up)
    ensures Values(r) == LoginList(ts, msg)
    ensures forall x :: x in r ==> x.id == msg.uid
    ensures forall i, j :: 0 <= i < j < |r| ==> r[i] != r[j]
  {
    hide WellFormed, LoginList, LoginCalls, Values;
    var back := new Session[|list|](i requires 0 <= i < |list| => list[i]);
    assert back[..] == list;
    var len, find;
    len, find, calls := RangeLogin(back, msg, up, list, ts);
    ScanResult(back, len, find, msg, list, ts);
    hide Scanned, LoginList, LoginCalls, Values;
    r := Collect(back[..len], find, msg, LoginList(ts, msg));
  }

  /** The new terminal is appended if the range found none of its type. */
  method Collect(kept: seq<Session>, find: bool, msg: LoginMsg, ghost ts: seq<Terminal>) returns (r: seq<Session>)
    requires ts == if find then Values(kept) else Values(kept) + [Fresh(msg)]
    requires forall x :: x in kept ==> x.id == msg.uid
    requires forall i, j :: 0 <= i < j < |kept| ==> kept[i] != kept[j]
    ensures Values(r) == ts
    ensures forall x :: x in r ==> x.id == msg.uid
    ensures forall i, j :: 0 <= i < j < |r| ==> r[i] != r[j]
  {
    hide Values;
    r := kept;
    if !find {
      r := AppendFresh(r, msg);
    }
  }

  method RewriteList(s: Sessions, msg: LoginMsg, up: bool, ghost u: User) returns (calls: seq<Call>)
    requires Backs(msg.uid, s, u) && WellFormed(u.sess) && u.id == msg.uid
    modifies s`sess, s.sess
    ensures calls == LoginCalls(u.sess, msg.termtype, up)
    ensures Backs(msg.uid, s, u.(sess := LoginList(u.sess, msg)))
  {
    hide WellFormed, LoginList, LoginCalls, Values;
    var r;
    r, calls := Rewritten(s.sess, msg, up, u.sess);
    s.sess := r;
    BacksParts(msg.uid, s, u.(sess := LoginList(u.sess, msg)));
  }

  method AppendFresh(kept: seq<Session>, msg: LoginMsg) returns (r: seq<Session>)
    requires forall x :: x in kept ==> x.id == msg.uid
    requires forall i, j :: 0 <= i < j < |kept| ==> kept[i] != kept[j]
    ensures forall x :: x in r ==> x.id == msg.uid
    ensures forall i, j :: 0 <= i < j < |r| ==> r[i] != r[j]
    ensures Values(r) == Values(kept) + [Fresh(msg)]
  {
    var it := new Session(Fresh(msg));
    r := kept + [it];
  }

  /** What the fan-out reads of a terminal never changes. */
  predicate Portrays(it: Session, id: string, t: Terminal)
  {
    it.id == id == t.id && it.plat == t.plat
  }

  lemma GoneWellFormed(v: map<string, User>, cached: set<string>, comet: string)
    requires ViewWellFormed(v)
    ensures ViewWellFormed(CometGone(v, cached, comet))
  {
    forall u | u in v
      ensures WellFormed(CometGone(v, cached, comet)[u].sess)
    {
      SamePlatsWellFormed(v[u].sess, CometGone(v, cached, comet)[u].sess);
    }
  }

  lemma NobodyNotified(v: map<string, User>, r: map<string, User>, n: StateNotify, cached: bool)
    ensures n.id !in v ==> NotifyView(v, n, cached) == v && LoadChange(v, n) == 0
    ensures n.id !in v ==> forall writes :: Stored(r, v, n.id, writes) == r
    ensures n.id in v ==> LoadChange(v, n) == if n.online then 1 else OfflineChange(v[n.id].sess, n)
  {
  }

  lemma PortraysAll(s: Sessions, id: string, u: User)
    requires Backs(id, s, u)
    ensures forall k :: 0 <= k < |s.sess| ==> Portrays(s.sess[k], id, u.sess[k])
    ensures |s.sess| == |u.sess|
  {
    assert forall k :: 0 <= k < |s.sess| ==> Values(s.sess)[k] == s.sess[k].Value();
  }

  lemma ReceiverIs(v: map<string, User>, comets: set<string>, to: Receiver, r: nat, ok: Oracle)
    ensures to.uid !in v ==> ReceiverEntries(v, comets, to, r, ok) == []
    ensures to.uid in v ==> var ts := v[to.uid].sess;
      ReceiverEntries(v, comets, to, r, ok) == ItemEntries(ts, r, to.termtype, v[to.uid].cometId in comets, ok, |ts|)
  {
  }

  class Router {
    const store: Storager
    const pool: Pool

    ghost predicate Valid()
      reads *
    {
      store.Valid() && ViewWellFormed(store.view)
    }

    constructor (store: Storager)
      requires store.Valid() && ViewWellFormed(store.view)
      ensures Valid() && this.store == store && fresh(pool) && pool.online == map[]
    {
      this.store := store;
      pool := new Pool();
    }

    /** The topic userOnlineState. */
    method Login(msg: LoginMsg) returns (calls: seq<Call>)
      requires Valid()
      modifies store, store.Items(msg.uid)
      ensures Valid() && store.view == LoginView(old(store.view), msg)
      ensures if msg.login then store.WroteBack(msg.uid, true) else unchanged(store)
      ensures calls == CallsMade(old(store.view), msg, pool.online.Keys)
    {
      calls := [];
      if msg.login {
        store.KnownOk(msg.uid);
        LoginUserOk(store.view, msg);
        LoginViewOk(store.view, msg);
        hide LoginView, CallsMade, ViewWellFormed, UserOk, LoginUser;
        calls := LogIn(msg);
      }
    }

    method LogIn(msg: LoginMsg) returns (calls: seq<Call>)
      requires store.Valid() && msg.login && ViewWellFormed(store.view)
      requires UserOk(msg.uid, LoginUser(store.view, msg))
      requires msg.uid in store.view ==> UserOk(msg.uid, store.view[msg.uid])
      modifies store, store.Items(msg.uid)
      ensures store.Valid() && store.view == LoginView(old(store.view), msg)
      ensures store.redis == Stored(old(store.redis), store.view, msg.uid, true)
      ensures store.memStore.Keys == CachedWith(old(store.memStore.Keys), store.view, msg.uid)
      ensures calls == CallsMade(old(store.view), msg, pool.online.Keys)
    {
      LoginParts(store.view, msg);
      hide LoginView, CallsMade, UserOk, UserAgrees, Backs, LoginUser, Stored, WellFormed, Storager.ValidBut;
      var s := store.FindSessions(msg.uid);
      if s != null {
        calls := LoginKnown(s, msg, store.view[msg.uid]);
      } else {
        calls := LoginNew(msg);
      }
    }

    /** A login of a user without a list. */
    method LoginNew(msg: LoginMsg) returns (calls: seq<Call>)
      requires store.Valid() && msg.login && msg.uid !in store.view
      modifies store
      ensures store.Valid() && store.view == LoginView(old(store.view), msg) && msg.uid in store.view
      ensures store.redis == Stored(old(store.redis), store.view, msg.uid, true)
      ensures store.memStore.Keys == old(store.memStore.Keys) + {msg.uid}
      ensures calls == CallsMade(old(store.view), msg, pool.online.Keys)
    {
      calls := [];
      var it := new Session(Fresh(msg));
      var s := new Sessions(msg.uid, "", [it]);
      assert Values([it]) == [Fresh(msg)];
      hide UserAgrees, Values;
      store.KeepOthersBut(msg.uid);
      store.SaveSessions(s, User(msg.uid, "", [Fresh(msg)]));
    }

    /** A login of a user who has a list. */
    method LoginKnown(s: Sessions, msg: LoginMsg, ghost u: User) returns (calls: seq<Call>)
      requires store.Valid() && msg.login && msg.uid in store.view && store.view[msg.uid] == u
      requires Backs(msg.uid, s, u) && WellFormed(u.sess) && u.id == msg.uid && msg.uid in store.memStore
      requires UserOk(msg.uid, u.(sess := LoginList(u.sess, msg)))
      modifies store, s`sess, s.sess
      ensures store.Valid() && store.view == LoginView(old(store.view), msg) && msg.uid in store.view
      ensures store.redis == Stored(old(store.redis), store.view, msg.uid, true)
      ensures store.memStore.Keys == old(store.memStore.Keys)
      ensures calls == CallsMade(old(store.view), msg, pool.online.Keys)
    {
      hide UserOk, UserAgrees, LoginList, LoginCalls, WellFormed, Values;
      calls := RewriteList(s, msg, s.cometId in pool.online, u);
      store.KeepOthersBut(msg.uid);
      store.SaveSessions(s, u.(sess := LoginList(u.sess, msg)));
    }

    // ---------- State notifications ----------

    method Notify(n: StateNotify)
      requires Valid()
      modifies pool`online, store`redis, store`memStore, store`view, store.Items(n.id)`online
      ensures Valid()
      ensures store.view == NotifyView(old(store.view), n, n.id in old(store.memStore))
      ensures store.WroteBack(n.id, !EarlyReturn(old(store.view), n))
      ensures pool.online == Counted(old(pool.online), n.cometId, LoadChange(old(store.view), n))
    {
      NotifyWellFormed(store.view, n, n.id in store.memStore);
      if n.online {
        Online(n);
      } else {
        Offline(n);
      }
    }

    method Online(n: StateNotify)
      requires store.Valid() && n.online
      modifies pool`online, store`redis, store`memStore, store`view, store.Items(n.id)`online
      ensures pool.online == Counted(old(pool.online), n.cometId, LoadChange(old(store.view), n))
      ensures store.Valid()
      ensures store.view == NotifyView(old(store.view), n, true)
      ensures store.redis == Stored(old(store.redis), store.view, n.id, true)
      ensures store.memStore.Keys == CachedWith(old(store.memStore.Keys), store.view, n.id)
    {
      CountedTwice(pool.online, n.cometId, 0, 0);
      NobodyNotified(store.view, store.redis, n, true);
      store.KnownOk(n.id);
      hide UserAgrees, UserOk, Values, Counted, LoadChange, NotifyView, Stored, Backs, Storager.ValidBut;
      var s := store.FindSessions(n.id);
      if s != null {
        OnlineKnown(s, n, store.view[n.id]);
      }
    }

    method OnlineKnown(s: Sessions, n: StateNotify, ghost u: User)
      requires store.Valid() && n.online && n.id in store.view && store.view[n.id] == u
      requires Backs(n.id, s, u) && UserOk(n.id, u) && n.id in store.memStore
      modifies pool`online, store`redis, store`memStore, store`view, s`cometId, s.sess`online
      ensures pool.online == Counted(old(pool.online), n.cometId, LoadChange(old(store.view), n))
      ensures store.Valid() && n.id in store.view
      ensures store.view == NotifyView(old(store.view), n, true)
      ensures store.redis == Stored(old(store.redis), store.view, n.id, true)
      ensures store.memStore.Keys == old(store.memStore.Keys)
    {
      assert LoadChange(store.view, n) == 1;
      hide UserAgrees, UserOk, Values, Counted, LoadChange, NotifyView, Stored, Backs, Storager.ValidBut;
      pool.CometAdd(n.cometId);
      OnlineAt(s, n, u);
    }

    method OnlineAt(s: Sessions, n: StateNotify, ghost u: User)
      requires store.Valid() && n.online && n.id in store.view && store.view[n.id] == u
      requires Backs(n.id, s, u) && UserOk(n.id, u) && n.id in store.memStore
      modifies store`redis, store`memStore, store`view, s`cometId, s.sess`online
      ensures store.Valid() && n.id in store.view
      ensures store.view == NotifyView(old(store.view), n, true)
      ensures store.redis == Stored(old(store.redis), store.view, n.id, true)
      ensures store.memStore.Keys == old(store.memStore.Keys)
    {
      MarkOnlineOk(n.id, u.sess, n);
      hide UserAgrees, UserOk, Values, MarkOnline, Backs;
      Attach(s, n, u);
      store.KeepOthersBut(n.id);
      SaveOnline(s, n, u);
    }

    /** Marks the terminals concerned, in a list that is the comet's from now on. */
    method Attach(s: Sessions, n: StateNotify, ghost u: User)
      requires Backs(n.id, s, u) && u.id == n.id
      modifies s`cometId, s.sess`online
      ensures Backs(n.id, s, User(u.id, n.cometId, MarkOnline(u.sess, n)))
    {
      hide Values, MarkOnline;
      s.cometId := n.cometId;
      MarkAll(s.sess, n, u.sess);
      BacksParts(n.id, s, User(u.id, n.cometId, MarkOnline(u.sess, n)));
    }

    method SaveOnline(s: Sessions, n: StateNotify, ghost u: User)
      requires store.ValidBut({n.id}) && n.online && n.id in store.view && store.view[n.id] == u && s.id == n.id
      requires var w := User(u.id, n.cometId, MarkOnline(u.sess, n)); Backs(n.id, s, w) && UserOk(n.id, w)
      requires n.id in store.memStore
      modifies store`redis, store`memStore, store`view
      ensures store.Valid() && n.id in store.view
      ensures store.view == NotifyView(old(store.view), n, true)
      ensures store.redis == Stored(old(store.redis), store.view, n.id, true)
      ensures store.memStore.Keys == old(store.memStore.Keys)
    {
      hide UserAgrees, UserOk, Values, MarkOnline, Backs, Storager.ValidBut;
      store.SaveSessions(s, User(u.id, n.cometId, MarkOnline(u.sess, n)));
    }

    method Offline(n: StateNotify)
      requires store.Valid() && !n.online
      modifies pool`online, store`redis, store`memStore, store`view, store.Items(n.id)`online
      ensures store.Valid()
      ensures store.view == NotifyView(old(store.view), n, n.id in old(store.memStore))
      ensures store.redis == Stored(old(store.redis), store.view, n.id, !EarlyReturn(old(store.view), n))
      ensures store.memStore.Keys == CachedWith(old(store.memStore.Keys), store.view, n.id)
      ensures pool.online == Counted(old(pool.online), n.cometId, LoadChange(old(store.view), n))
    {
      CountedTwice(pool.online, n.cometId, 0, 0);
      NobodyNotified(store.view, store.redis, n, n.id in store.memStore);
      hide UserAgrees, Values, UserOk, Counted, LoadChange, NotifyView, Stored, EarlyReturn;
      ghost var cached := n.id in store.memStore;
      var s := store.FindSessions(n.id);
      if s != null {
        assert store.RedisOk(n.id);
        OfflineKnown(s, n, store.view[n.id], cached);
      }
    }

    method OfflineKnown(s: Sessions, n: StateNotify, ghost u: User, ghost cached: bool)
      requires store.Valid() && !n.online && n.id in store.view && store.view[n.id] == u
      requires Backs(n.id, s, u) && UserOk(n.id, u)
      requires n.id in store.memStore && store.memStore[n.id].sess == s.sess && (cached <==> store.memStore[n.id] != s)
      modifies pool`online, store`redis, store`memStore, store`view, s`cometId, s.sess`online
      ensures pool.online == Counted(old(pool.online), n.cometId, OfflineChange(u.sess, n))
      ensures store.Valid()
      ensures store.view == NotifyView(old(store.view), n, cached)
      ensures store.redis == Stored(old(store.redis), store.view, n.id, !EarlyReturn(old(store.view), n))
      ensures store.memStore.Keys == old(store.memStore.Keys) && n.id in store.view
    {
      hide UserAgrees, Values, UserOk, ConcernedAt, Counted, OfflineChange, LoadChange, NotifyView, Stored, EarlyReturn;
      var i := CountVisited(s.sess, n, u.sess);
      ghost var counted := pool.online;
      OfflineAt(s, i, n, u, cached);
      assert pool.online == counted;
    }

    method OfflineAt(s: Sessions, i: nat, n: StateNotify, ghost u: User, ghost cached: bool)
      requires store.Valid() && !n.online && n.id in store.view && store.view[n.id] == u && i == ConcernedAt(u.sess, n)
      requires Backs(n.id, s, u) && UserOk(n.id, u)
      requires n.id in store.memStore && store.memStore[n.id].sess == s.sess && (cached <==> store.memStore[n.id] != s)
      modifies store`redis, store`memStore, store`view, s`cometId, s.sess`online
      ensures store.Valid()
      ensures store.view == NotifyView(old(store.view), n, cached)
      ensures store.redis == Stored(old(store.redis), store.view, n.id, !EarlyReturn(old(store.view), n))
      ensures store.memStore.Keys == old(store.memStore.Keys) && n.id in store.view
    {
      hide UserAgrees, Values, UserOk, OfflineUser, ConcernedAt;
      if i < |s.sess| {
        Disconnect(s, i, s.sess[i], n, u, cached);
      } else {
        Reattach(s, n, u, cached);
      }
    }

    /** The loop that subtracts one from the comet's count for each terminal it looks at. */
    method CountVisited(list: seq<Session>, n: StateNotify, ghost ts: seq<Terminal>) returns (i: nat)
      requires Values(list) == ts
      modifies pool`online
      ensures i == ConcernedAt(ts, n)
      ensures pool.online == Counted(old(pool.online), n.cometId, OfflineChange(ts, n))
    {
      i := 0;
      CountedTwice(pool.online, n.cometId, 0, 0);
      while i < |list|
        invariant i <= |list|
        invariant forall k :: 0 <= k < i ==> !Concerns(n, ts[k])
        invariant pool.online == Counted(old(pool.online), n.cometId, 0 - i)
      {
        CountedTwice(old(pool.online), n.cometId, 0 - i, -1);
        pool.CometSub(n.cometId);
        assert list[i].Value() == ts[i];
        if list[i].plat == n.termtype && list[i].authCode == n.token {
          ConcernedIs(ts, n, i);
          return;
        }
        i := i + 1;
      }
      ConcernedIs(ts, n, i);
    }

    /** No terminal is concerned: only the comet changes, and the list is saved. */
    method Reattach(s: Sessions, n: StateNotify, ghost u: User, ghost cached: bool)
      requires store.Valid() && n.id in store.view && store.view[n.id] == u
      requires Backs(n.id, s, u) && UserOk(n.id, u) && ConcernedAt(u.sess, n) == |u.sess|
      modifies store`redis, store`memStore, store`view, s`cometId
      ensures store.Valid()
      ensures store.view == old(store.view)[n.id := OfflineUser(u, n, cached)]
      ensures store.redis == old(store.redis)[n.id := store.view[n.id]]
      ensures store.memStore.Keys == old(store.memStore.Keys) + {n.id}
    {
      hide UserAgrees, Values;
      s.cometId := n.cometId;
      BacksParts(n.id, s, u.(cometId := n.cometId));
      store.KeepOthersBut(n.id);
      store.SaveSessions(s, u.(cometId := n.cometId));
    }

    /** The early return: the shared terminal is marked, and nothing is saved. */
    method Disconnect(s: Sessions, i: nat, it: Session, n: StateNotify, ghost u: User, ghost cached: bool)
      requires store.Valid() && n.id in store.view && store.view[n.id] == u
      requires Backs(n.id, s, u) && i == ConcernedAt(u.sess, n) && i < |s.sess| && s.sess[i] == it
      requires n.id in store.memStore && store.memStore[n.id].sess == s.sess && (cached <==> store.memStore[n.id] != s)
      modifies s`cometId, it`online, store`view
      ensures store.Valid()
      ensures store.view == old(store.view)[n.id := OfflineUser(u, n, cached)]
    {
      assert store.RedisOk(n.id) && store.CacheOk(n.id);
      OfflineUserOk(n.id, u, store.redis[n.id], n, cached);
      hide UserAgrees, Values, UserOk, OfflineUser;
      Detach(s, i, it, n, store.memStore[n.id], u, cached);
      store.KeepOthersBut(n.id);
      Publish(n.id, OfflineUser(u, n, cached));
    }

    /** Marks the terminal; `c` is the cached list that shares it. */
    method Detach(s: Sessions, i: nat, it: Session, n: StateNotify, ghost c: Sessions, ghost u: User,
                  ghost cached: bool)
      requires Backs(n.id, s, u) && i == ConcernedAt(u.sess, n) && i < |s.sess| && s.sess[i] == it
      requires Backs(n.id, c, u) && c.sess == s.sess && (cached <==> c != s)
      modifies s`cometId, it`online
      ensures Backs(n.id, c, OfflineUser(u, n, cached))
    {
      s.cometId := n.cometId;
      it.online := false;
      assert Values(c.sess) == OfflineUser(u, n, cached).sess;
      BacksParts(n.id, c, OfflineUser(u, n, cached));
    }

    /** The cached list of a user now stands for `u`. */
    ghost method Publish(id: string, u: User)
      requires store.ValidBut({id}) && id in store.memStore && id in store.redis
      requires Backs(id, store.memStore[id], u)
      requires UserOk(id, store.redis[id]) && UserOk(id, u) && UserAgrees(u, store.redis[id])
      modifies store`view
      ensures store.Valid() && store.view == old(store.view)[id := u]
    {
      hide UserAgrees, UserOk, Backs;
      store.view := store.view[id := u];
      store.KeepOthers({id});
      assert store.RedisOk(id) && store.CacheOk(id);
    }

    // ---------- Downward messages ----------

    method SaveOfflineMsg(kind: Option<Kind>, id: string, plat: Plat, body: string)
      requires store.Valid()
      modifies store, store.Items(id)`off
      ensures store.Valid() && store.OthersKept(id) && store.OwnItems(id)
      ensures store.view == SaveOne(old(store.view), kind, id, plat, body)
    {
      match kind {
        case Some(PushKind) => store.SavePushMsg(id, plat, body);
        case Some(CallbackKind) => store.SaveCallbackMsg(id, plat, body);
        case Some(ImKind) => store.SaveImMsg(id, plat, body);
        case None =>
      }
    }

    /** One terminal: `up` says that the user's comet is registered. */
    method DeliverItem(kind: Option<Kind>, it: Session, up: bool, pushed: bool, body: string) returns (fate: Fate)
      requires store.Valid()
      modifies store, store.Items(it.id)`off
      ensures store.Valid() && store.OthersKept(it.id) && store.OwnItems(it.id)
      ensures fate == FateOf(it.plat, up, pushed)
      ensures store.view ==
        if fate.HandedOffline? then SaveOne(old(store.view), kind, it.id, it.plat, body) else old(store.view)
    {
      if !up {
        fate := HandedOffline;
        SaveOfflineMsg(kind, it.id, it.plat, body);
      } else if pushed {
        fate := Pushed;
      } else if it.plat != PLAT_WEB {
        fate := HandedOffline;
        SaveOfflineMsg(kind, it.id, it.plat, body);
      } else {
        fate := DroppedWeb;
      }
    }

    /** One receiver: every terminal in the mask is handled, in list order. */
    method DeliverTo(kind: Option<Kind>, to: Receiver, r: nat, body: string, ok: Oracle,
                     ghost v: map<string, User>, ghost comets: set<string>) returns (log: seq<Entry>)
      requires store.Valid() && store.view == v && pool.online.Keys == comets
      modifies store, store.Items(to.uid)`off
      ensures store.Valid() && store.OthersKept(to.uid) && store.OwnItems(to.uid)
      ensures log == ReceiverEntries(v, comets, to, r, ok) && store.view == SaveAll(v, kind, body, log)
    {
      log := [];
      SaveAllEmpty(v, kind, body);
      ReceiverIs(v, comets, to, r, ok);
      hide SaveAll, UserAgrees, UserOk, MailOk, ItemEntries, ReceiverEntries, Backs, Storager.ValidBut;
      var s := store.FindSessions(to.uid);
      if s != null {
        log := DeliverFound(kind, s, to, r, body, ok, v[to.uid]);
      }
    }

    method DeliverFound(kind: Option<Kind>, s: Sessions, to: Receiver, r: nat, body: string, ok: Oracle, ghost u: User)
        returns (log: seq<Entry>)
      requires store.Valid() && Backs(to.uid, s, u)
      modifies store, store.Items(to.uid)`off
      ensures store.Valid() && store.OthersKept(to.uid) && store.OwnItems(to.uid)
      ensures log == ItemEntries(u.sess, r, to.termtype, u.cometId in pool.online, ok, |u.sess|)
      ensures store.view == SaveAll(old(store.view), kind, body, log)
    {
      PortraysAll(s, to.uid, u);
      hide SaveAll, UserAgrees, UserOk, MailOk, ItemEntries, Values, Storager.ValidBut;
      log := DeliverAll(kind, s.sess, s.cometId in pool.online, to, r, body, ok, u.sess);
    }

    method DeliverAll(kind: Option<Kind>, list: seq<Session>, up: bool, to: Receiver, r: nat, body: string, ok: Oracle,
                      ghost ts: seq<Terminal>) returns (log: seq<Entry>)
      requires store.Valid() && |list| == |ts|
      requires forall k :: 0 <= k < |list| ==> Portrays(list[k], to.uid, ts[k])
      modifies store, store.Items(to.uid)`off
      ensures store.Valid() && store.OthersKept(to.uid) && store.OwnItems(to.uid)
      ensures log == ItemEntries(ts, r, to.termtype, up, ok, |ts|)
      ensures store.view == SaveAll(old(store.view), kind, body, log)
    {
      log := [];
      SaveAllEmpty(store.view, kind, body);
      hide SaveAll, FateOf, SaveOne;
      var j := 0;
      while j < |list|
        invariant j <= |list|
        invariant store.Valid() && store.OthersKept(to.uid) && store.OwnItems(to.uid)
        invariant log == ItemEntries(ts, r, to.termtype, up, ok, j)
        invariant store.view == SaveAll(old(store.view), kind, body, log)
      {
        var it := list[j];
        assert Portrays(it, to.uid, ts[j]);
        if InMask(it.plat, to.termtype) {
          var fate := DeliverItem(kind, it, up, ok(r, j), body);
          SaveAllAppend(old(store.view), kind, body, log, Entry(r, j, it.id, it.plat, fate));
          log := log + [Entry(r, j, it.id, it.plat, fate)];
        }
        j := j + 1;
      }
    }

    /** One receiver, seen from the whole cache; `all` bounds the terminals it may touch. */
    method DeliverNext(kind: Option<Kind>, to: Receiver, r: nat, body: string, ok: Oracle, ghost all: set<Session>)
        returns (log: seq<Entry>, ghost seen: set<Session>)
      requires store.Valid() && store.Within(all)
      modifies store, all
      ensures store.Valid() && store.Within(seen) && fresh(seen - all)
      ensures log == ReceiverEntries(old(store.view), pool.online.Keys, to, r, ok)
      ensures store.view == SaveAll(old(store.view), kind, body, log)
    {
      hide SaveAll, ReceiverEntries;
      log := DeliverTo(kind, to, r, body, ok, store.view, pool.online.Keys);
      seen := all + store.Items(to.uid);
    }

    /** The topics push, callback and msgDownward. */
    method Downward(topic: string, receivers: seq<Receiver>, body: string, ok: Oracle) returns (log: seq<Entry>)
      requires Valid()
      modifies store, store.AllItems()
      ensures Valid()
      ensures log == Entries(old(store.view), pool.online.Keys, receivers, ok, |receivers|)
      ensures store.view == SaveAll(old(store.view), KindOf(topic), body, log)
    {
      var kind := KindOf(topic);
      log := [];
      SaveAllEmpty(store.view, kind, body);
      ghost var all := store.AllItems();
      hide SaveAll, ReceiverEntries, SameShape, WellFormed;
      var k := 0;
      while k < |receivers|
        invariant k <= |receivers|
        invariant store.Valid() && store.Within(all) && fresh(all - old(store.AllItems()))
        invariant log == Entries(old(store.view), pool.online.Keys, receivers, ok, k)
        invariant store.view == SaveAll(old(store.view), kind, body, log)
      {
        SaveAllShape(old(store.view), kind, body, log);
        SameReceiverEntries(old(store.view), store.view, pool.online.Keys, receivers[k], k, ok);
        var more;
        more, all := DeliverNext(kind, receivers[k], k, body, ok, all);
        SaveAllConcat(old(store.view), kind, body, log, more);
        log := log + more;
        k := k + 1;
      }
      SaveAllShape(old(store.view), kind, body, log);
      SameShapeWellFormed(old(store.view), store.view);
    }

    // ---------- The pool ----------

    /** A comet registers; `connected` says whether the router could reach it. A known comet keeps
        its count, and goes if it cannot be reached. */
    method CometRegister(id: string, connected: bool) returns (ok: bool)
      modifies pool`online
      ensures ok == connected
      ensures pool.online.Keys == if connected then old(pool.online.Keys) + {id} else old(pool.online.Keys) - {id}
      ensures forall c :: c in pool.online ==>
        pool.online[c] == if c in old(pool.online) then old(pool.online)[c] else 0
    {
      if id in pool.online {
        if !connected {
          pool.DeleteComet(id);
          return false;
        }
      } else if !connected {
        return false;
      }
      pool.InsertComet(id);
      return true;
    }

    /** A comet is gone: no user is sent there any more, and its cached users go offline. */
    method CometExit(id: string)
      requires Valid()
      modifies pool`online, store`redis, store`view, store.AllItems()`online
      ensures Valid() && pool.online == old(pool.online) - {id}
      ensures CometLeft(old(store.view), old(store.redis), store.view, store.redis, store.memStore.Keys, id)
    {
      pool.DeleteComet(id);
      store.OfflineComet(id);
      hide WellFormed;
      GoneWellFormed(old(store.view), store.memStore.Keys, id);
    }

    /** Where a terminal should connect: to the comet its user is at, if that is known, and else
        to the one the scan chooses. */
    method Dispatch(id: string, order: seq<string>) returns (c: Option<string>)
      requires Valid() && Visits(pool.online, order)
      modifies store`memStore
      ensures Valid()
      ensures id in store.view && store.view[id].cometId in pool.online ==> c == Some(store.view[id].cometId)
      ensures !(id in store.view && store.view[id].cometId in pool.online) ==>
        && (c.None? <==> pool.online == map[])
        && (c.Some? ==> (LeastLoaded(pool.online, c.value) <==> !ZeroForgotten(Loads(pool.online, order))))
    {
      hide UserAgrees, UserOk, LeastLoaded, ZeroForgotten;
      var s := store.FindSessions(id);
      if s != null && s.cometId in pool.online {
        return Some(s.cometId);
      }
      ghost var at;
      c, at := pool.Balancer(order);
    }

    // ---------- Authentication ----------

    method Auth(id: string, plat: Plat, code: string) returns (ok: bool)
      requires Valid()
      modifies store`memStore
      ensures Valid() && store.memStore.Keys == CachedWith(old(store.memStore.Keys), store.view, id)
      ensures ok == AuthOk(store.view, id, plat, code)
      ensures ok <==> id in store.view && exists t ::
        t in store.view[id].sess && t.plat == plat && t.authCode == code && t.login
    {
      AuthorisedListed(store.view, id, plat, code);
      ghost var v := store.view;
      hide UserAgrees, UserOk, AuthOk, CachedWith, Storager.ValidBut;
      ok := Authorised(id, plat, code);
      assert store.view == v;
    }

    method Authorised(id: string, plat: Plat, code: string) returns (ok: bool)
      requires Valid()
      modifies store`memStore
      ensures Valid() && store.memStore.Keys == CachedWith(old(store.memStore.Keys), store.view, id)
      ensures ok == AuthOk(store.view, id, plat, code)
    {
      ok := false;
      hide UserAgrees, UserOk, Storager.ValidBut;
      var s := store.FindSessions(id);
      if s != null {
        ok := HasAuthorised(s.sess, plat, code, store.view[id].sess);
      }
    }
  }

  lemma AuthorisedListed(v: map<string, User>, id: string, plat: Plat, code: string)
    ensures AuthOk(v, id, plat, code) <==>
            id in v && exists t :: t in v[id].sess && t.plat == plat && t.authCode == code && t.login
  {
    if AuthOk(v, id, plat, code) {
      var i :| 0 <= i < |v[id].sess| && Authorises(v[id].sess[i], plat, code);
      assert v[id].sess[i] in v[id].sess;
    }
    if t :| id in v && t in v[id].sess && t.plat == plat && t.authCode == code && t.login {
      var i :| 0 <= i < |v[id].sess| && v[id].sess[i] == t;
      assert Authorises(v[id].sess[i], plat, code);
    }
  }

  method HasAuthorised(list: seq<Session>, plat: Plat, code: string, ghost ts: seq<Terminal>) returns (ok: bool)
    requires Values(list) == ts
    ensures ok <==> exists i :: 0 <= i < |ts| && Authorises(ts[i], plat, code)
  {
    ok := false;
    var i := 0;
    while i < |list|
      invariant i <= |list|
      invariant forall j :: 0 <= j < i ==> !Authorises(ts[j], plat, code)
    {
      var v := list[i];
      assert v.Value() == ts[i];
      if v.plat == plat {
        if v.authCode == code && v.login {
          assert Authorises(ts[i], plat, code);
          return true;
        }
      }
      i := i + 1;
    }
  }

  method MarkAll(list: seq<Session>, n: StateNotify, ghost ts: seq<Terminal>)
    requires Values(list) == ts
    requires forall i, j :: 0 <= i < j < |list| ==> list[i] != list[j]
    modifies list`online
    ensures Values(list) == MarkOnline(ts, n)
  {
    var i := 0;
    while i < |list|
      invariant i <= |list|
      invariant forall k :: 0 <= k < i ==> list[k].Value() == MarkOnline(ts, n)[k]
      invariant forall k :: i <= k < |list| ==> list[k].Value() == ts[k]
    {
      if list[i].plat == n.termtype && list[i].authCode == n.token {
        list[i].online := true;
      }
      i := i + 1;
    }
  }

  lemma {:induction false} ConcernedIs(ts: seq<Terminal>, n: StateNotify, i: nat)
    requires i <= |ts| && (i < |ts| ==> Concerns(n, ts[i]))
    requires forall j :: 0 <= j < i ==> !Concerns(n, ts[j])
    ensures ConcernedAt(ts, n) == i
  {
    if i > 0 {
      ConcernedIs(ts[1..], n, i - 1);
    }
  }

  lemma SameShapeWellFormed(v: map<string, User>, w: map<string, User>)
    requires ViewWellFormed(v) && SameShape(v, w)
    ensures ViewWellFormed(w)
  {
    forall u | u in w
      ensures WellFormed(w[u].sess)
    {
      assert SameUserShape(v[u], w[u]);
      SamePlatsWellFormed(v[u].sess, w[u].sess);
    }
  }

  lemma LoginListOk(id: string, ts: seq<Terminal>, msg: LoginMsg)
    requires id == msg.uid && WellFormed(ts) && forall t :: t in ts ==> TerminalOk(id, t)
    ensures forall t :: t in LoginList(ts, msg) ==> TerminalOk(id, t)
  {
    LoginListCases(ts, msg);
    var d := ClashAt(ts, msg.termtype);
    if d < |ts| {
      assert TerminalOk(id, ts[d]) && TerminalOk(id, Renewed(ts[d], msg));
    }
    assert TerminalOk(id, Fresh(msg));
    hide WellFormed, LoginList, ClashAt, Fresh, Renewed, TerminalOk;
    forall t | t in LoginList(ts, msg)
      ensures TerminalOk(id, t)
    {
    }
  }

  lemma LoginViewOk(v: map<string, User>, msg: LoginMsg)
    requires ViewWellFormed(v) && WellFormed(LoginUser(v, msg).sess)
    ensures ViewWellFormed(LoginView(v, msg))
  {
  }

  lemma LoginParts(v: map<string, User>, msg: LoginMsg)
    requires ViewWellFormed(v) && (msg.uid in v ==> UserOk(msg.uid, v[msg.uid]))
    ensures msg.uid in v ==>
      WellFormed(v[msg.uid].sess) && v[msg.uid].id == msg.uid
      && LoginUser(v, msg) == v[msg.uid].(sess := LoginList(v[msg.uid].sess, msg))
  {
  }

  lemma LoginUserOk(v: map<string, User>, msg: LoginMsg)
    requires ViewWellFormed(v) && (msg.uid in v ==> UserOk(msg.uid, v[msg.uid]))
    ensures UserOk(msg.uid, LoginUser(v, msg)) && WellFormed(LoginUser(v, msg).sess)
  {
    if msg.uid in v {
      LoginListOk(msg.uid, v[msg.uid].sess, msg);
      LoginListWellFormed(v[msg.uid].sess, msg);
    }
  }
}
