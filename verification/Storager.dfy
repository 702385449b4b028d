/** The Storager object of internal/rds/rds.go. */
module StoragerModel {
  import opened Prelude
  import opened Terminals
  import opened Rds

  /** Builds the objects a stored value denotes; nothing else refers to them. */
  method Unmarshal(u: User) returns (s: Sessions)
    ensures fresh(s) && s.id == u.id && s.Value() == u
    ensures forall i :: 0 <= i < |s.sess| ==> fresh(s.sess[i])
    ensures forall i, j :: 0 <= i < j < |s.sess| ==> s.sess[i] != s.sess[j]
  {
    var items: seq<Session> := [];
    var k := 0;
    while k < |u.sess|
      invariant k <= |u.sess| && |items| == k
      invariant forall i :: 0 <= i < k ==> fresh(items[i]) && items[i].Value() == u.sess[i]
      invariant forall i, j :: 0 <= i < j < k ==> items[i] != items[j]
    {
      var t := new Session(u.sess[k]);
      items := items + [t];
      k := k + 1;
    }
    s := new Sessions(u.id, u.cometId, items);
    assert Values(items) == u.sess;
  }

  /** A list of user `id` that stands for the value `u`: its terminals carry the user's id
      and are distinct objects. */
  ghost predicate Backs(id: string, s: Sessions, u: User)
    reads s, s.sess
  {
    && s.id == id && s.Value() == u
    && (forall i :: 0 <= i < |s.sess| ==> s.sess[i].id == id)
    && (forall i, j :: 0 <= i < j < |s.sess| ==> s.sess[i] != s.sess[j])
  }

  method Copy(c: Sessions, ghost id: string, ghost u: User) returns (s: Sessions)
    requires Backs(id, c, u)
    ensures fresh(s) && s.sess == c.sess && Backs(id, s, u)
  {
    s := new Sessions(c.id, c.cometId, c.sess);
  }

  lemma AgreesWithItself(u: User)
    ensures UserAgrees(u, u)
  {
  }

  method Load(id: string, u: User) returns (s: Sessions)
    requires UserOk(id, u)
    ensures fresh(s) && Backs(id, s, u)
    ensures forall i :: 0 <= i < |s.sess| ==> fresh(s.sess[i])
  {
    s := Unmarshal(u);
    assert forall i :: 0 <= i < |s.sess| ==> s.sess[i].Value() in s.Value().sess;
  }

  twostate lemma SameValue(s: Sessions)
    requires unchanged(s) && forall it :: it in old(s.sess) ==> unchanged(it)
    ensures s.Value() == old(s.Value())
  {
    forall i | 0 <= i < |s.sess|
      ensures s.sess[i].Value() == old(s.sess[i].Value())
    {
      assert old(s.sess)[i] in old(s.sess);
    }
  }

  /** The range loop that stops at the first terminal of the given type. */
  method Find(sess: seq<Session>, plat: Plat) returns (i: nat)
    ensures i == First(Values(sess), plat)
  {
    i := 0;
    while i < |sess| && sess[i].plat != plat
      invariant i <= |sess|
      invariant forall j :: 0 <= j < i ==> sess[j].plat != plat
    {
      i := i + 1;
    }
    FirstIs(Values(sess), plat, i);
  }

  lemma SavedIs(v: map<string, User>, id: string, plat: Plat, kind: Kind, msg: string, m: Mail)
    requires id in v
    requires HasTerminal(v, id, plat) ==> m == AddMail(MailOf(v, id, plat), kind, WebOnline(v[id].sess), msg)
    ensures Saved(v, id, plat, kind, msg)
         == if HasTerminal(v, id, plat) then v[id := WithMail(v[id], First(v[id].sess, plat), m)] else v
  {
  }

  lemma DrainedIs(v: map<string, User>, id: string, plat: Plat, kind: Kind, m: Mail)
    requires id in v
    requires HasTerminal(v, id, plat) ==> m == TakeMail(MailOf(v, id, plat), kind)
    ensures Drained(v, id, plat, kind)
         == if HasTerminal(v, id, plat) then v[id := WithMail(v[id], First(v[id].sess, plat), m)] else v
  {
  }

  lemma SavedNowhere(v: map<string, User>, id: string, plat: Plat, kind: Kind, msg: string)
    ensures id !in v ==> Saved(v, id, plat, kind, msg) == v && !Duplicate(v, id, plat, msg)
  {
  }

  lemma DrainedNowhere(v: map<string, User>, id: string, plat: Plat, kind: Kind)
    ensures id !in v ==> Drained(v, id, plat, kind) == v
    ensures !HasTerminal(v, id, plat) ==> MailOf(v, id, plat) == NO_MAIL
    ensures id !in v ==> !HasTerminal(v, id, plat)
  {
  }

  lemma SavedDuplicate(v: map<string, User>, id: string, plat: Plat, msg: string)
    requires HasTerminal(v, id, plat) && HasCallback(MailOf(v, id, plat).cb, msg)
    ensures Saved(v, id, plat, CallbackKind, msg) == v
  {
    var i := First(v[id].sess, plat);
    assert v[id].sess[i := v[id].sess[i]] == v[id].sess;
  }

  method Pick(s: Sessions, plat: Plat, ghost id: string, ghost u: User) returns (i: nat, it: Session?)
    requires Backs(id, s, u) && UserOk(id, u)
    ensures i == First(u.sess, plat) && |u.sess| == |s.sess| && s.id == id
    ensures it == null <==> i == |s.sess|
    ensures it != null ==> it == s.sess[i] && it.Value() == u.sess[i] && MailOk(it.off)
  {
    it := null;
    i := Find(s.sess, plat);
    if i < |s.sess| {
      it := s.sess[i];
      assert it.Value() in u.sess;
    }
  }

  /** The range loop that stops at the web terminal. */
  method IsWebOnline(s: Sessions, ghost id: string, ghost u: User) returns (web: bool)
    requires Backs(id, s, u)
    ensures web == WebOnline(u.sess)
  {
    var w := Find(s.sess, PLAT_WEB);
    web := w < |s.sess| && s.sess[w].online;
  }

  method Contains(cb: seq<Item>, msg: string) returns (found: bool)
    ensures found == HasCallback(cb, msg)
  {
    var k := 0;
    while k < |cb|
      invariant k <= |cb|
      invariant forall j :: 0 <= j < k ==> cb[j].msg != msg
    {
      if cb[k].msg == msg {
        return true;
      }
      k := k + 1;
    }
    found := false;
  }

  method AppendCallback(before: Mail, msg: string, ghost web: bool) returns (m: Mail)
    requires MailOk(before) && !HasCallback(before.cb, msg)
    ensures MailOk(m) && m == AddMail(before, CallbackKind, web, msg)
  {
    m := before.(cb := before.cb + [Item(false, msg)]);
    AddMailOk(before, CallbackKind, web, msg);
  }

  method AppendIm(before: Mail, web: bool, msg: string) returns (m: Mail)
    requires MailOk(before)
    ensures MailOk(m) && m == AddMail(before, ImKind, web, msg)
  {
    var im := before.im;
    if |im| > 50 {
      im := im[1..50];
    }
    m := before.(im := im + [Item(web, msg)]);
    AddMailOk(before, ImKind, web, msg);
  }

  method SetOff(it: Session, m: Mail, ghost s: Sessions, ghost i: nat, ghost id: string, ghost u: User)
    requires Backs(id, s, u) && i < |s.sess| && s.sess[i] == it
    modifies it`off
    ensures Backs(id, s, WithMail(u, i, m))
  {
    it.off := m;
    assert Values(s.sess) == u.sess[i := u.sess[i].(off := m)];
  }

  lemma WithMailOk(id: string, u: User, i: nat, m: Mail)
    requires UserOk(id, u) && i < |u.sess| && MailOk(m)
    ensures UserOk(id, WithMail(u, i, m))
  {
    assert u.sess[i] in u.sess;
  }

  /** What a departed comet leaves behind: these users of it are offline and saved so; nobody
      else is touched. */
  ghost predicate CometLeft(v: map<string, User>, r: map<string, User>, v': map<string, User>, r': map<string, User>,
                            cached: set<string>, comet: string)
  {
    && v' == CometGone(v, cached, comet) && r'.Keys == r.Keys && cached <= v.Keys && v.Keys == r.Keys
    && (forall u :: u in r ==> r'[u] == if u in cached && v[u].cometId == comet then v'[u] else r[u])
  }

  lemma NobodyLeft(v: map<string, User>, r: map<string, User>, comet: string)
    requires v.Keys == r.Keys
    ensures CometLeft(v, r, v, r, {}, comet)
  {
  }

  lemma OneMoreLeft(v: map<string, User>, r: map<string, User>, v': map<string, User>, r': map<string, User>,
                    cached: set<string>, comet: string, u: string)
    requires CometLeft(v, r, v', r', cached, comet) && u in v && u !in cached
    ensures u in v' && v'[u] == v[u]
    ensures var w := v'[u := LeftComet(v[u], comet)];
      CometLeft(v, r, w, if v[u].cometId == comet then r'[u := w[u]] else r', cached + {u}, comet)
  {
  }

  /** Of those cached, these have been visited and those have not. */
  predicate Parts(cached: set<string>, done: set<string>, todo: set<string>)
  {
    done !! todo && done + todo == cached
  }

  lemma PartsStart(cached: set<string>)
    ensures Parts(cached, {}, cached)
  {
  }

  lemma PartsNext(cached: set<string>, done: set<string>, todo: set<string>, u: string)
    requires Parts(cached, done, todo) && u in todo
    ensures u in cached && u !in done && Parts(cached, done + {u}, todo - {u})
  {
  }

  lemma PartsEnd(cached: set<string>, done: set<string>)
    ensures Parts(cached, done, {}) ==> done == cached
  {
  }

  method SwitchOff(s: Sessions, ghost id: string, ghost u: User)
    requires Backs(id, s, u)
    modifies s.sess`online
    ensures Backs(id, s, u.(sess := AllOffline(u.sess)))
  {
    var i := 0;
    while i < |s.sess|
      invariant i <= |s.sess|
      invariant forall k :: 0 <= k < i ==> s.sess[k].Value() == AllOffline(u.sess)[k]
      invariant forall k :: i <= k < |s.sess| ==> s.sess[k].Value() == u.sess[k]
    {
      s.sess[i].online := false;
      i := i + 1;
    }
    assert Values(s.sess) == AllOffline(u.sess);
  }

  class Storager {
    var redis: map<string, User>
    var memStore: map<string, Sessions>

    /** The users as the next `FindSessions` would see them. */
    ghost var view: map<string, User>

    ghost function Items(id: string): set<Session>
      reads this, memStore.Values
    {
      if id in memStore then set it | it in memStore[id].sess else {}
    }

    ghost function AllItems(): (all: set<Session>)
      reads this, memStore.Values
      ensures forall u :: u in memStore ==> Items(u) <= all
    {
      set u, it | u in memStore && it in Items(u) :: it
    }

    /** All cached terminals are among the given ones. */
    ghost predicate Within(all: set<Session>)
      reads this, memStore.Values
    {
      forall u :: u in memStore ==> Items(u) <= all
    }

    ghost predicate CacheOk(u: string)
      requires u in memStore
      reads this, memStore.Values, memStore[u].sess
    {
      u in view && Backs(u, memStore[u], view[u])
    }

    /** Redis against what is visible: they agree up to `online` and `cometId`, and a user
        who is not cached is seen exactly as stored. */
    ghost predicate RedisOk(u: string)
      requires u in redis && u in view
      reads this
    {
      && UserOk(u, redis[u]) && UserOk(u, view[u])
      && UserAgrees(view[u], redis[u])
      && (u !in memStore ==> view[u] == redis[u])
    }

    /** Every user's data is in order, except perhaps that of `id`. */
    ghost predicate ValidBut(id: set<string>)
      reads this, memStore.Values, AllItems()
    {
      && view.Keys == redis.Keys && memStore.Keys <= redis.Keys
      && (forall u :: u in redis && u !in id ==> RedisOk(u))
      && (forall u :: u in memStore && u !in id ==> CacheOk(u))
    }

    ghost predicate Valid()
      reads this, memStore.Values, AllItems()
    {
      ValidBut({})
    }

    lemma KnownOk(id: string)
      requires Valid()
      ensures id in view ==> UserOk(id, view[id])
    {
      assert id in view ==> RedisOk(id);
    }

    /** Opens the store on the users that redis holds; nothing is cached yet. */
    constructor (stored: map<string, User>)
      requires forall u :: u in stored ==> UserOk(u, stored[u])
      ensures Valid() && view == stored && redis == stored && memStore == map[]
    {
      redis, memStore, view := stored, map[], stored;
      new;
      forall u | u in stored
        ensures RedisOk(u)
      {
        AgreesWithItself(stored[u]);
      }
    }

    /** The cached list, shared terminal by terminal, or a copy read from redis. */
    method FindSessions(id: string) returns (s: Sessions?)
      requires Valid()
      modifies this`memStore
      ensures Valid()
      ensures s == null <==> id !in view
      ensures s == null ==> memStore == old(memStore)
      ensures s != null ==>
        && fresh(s) && Backs(id, s, view[id])
        && id in memStore && memStore[id].sess == s.sess
        && memStore == old(memStore)[id := memStore[id]] && memStore.Keys == old(memStore.Keys) + {id}
        && (if id in old(memStore) then memStore[id] == old(memStore[id])
            else memStore[id] == s && forall i :: 0 <= i < |s.sess| ==> fresh(s.sess[i]))
    {
      assert id in memStore ==> CacheOk(id);
      hide UserAgrees, UserOk, Backs;
      if id in memStore {
        s := Copy(memStore[id], id, view[id]);
        assert memStore == old(memStore)[id := memStore[id]];
      } else if id in redis {
        s := Fetch(id);
      } else {
        s := null;
      }
    }

    /** A user who is not cached is read from redis and cached. */
    method Fetch(id: string) returns (s: Sessions)
      requires Valid() && id !in memStore && id in redis
      modifies this`memStore
      ensures Valid() && fresh(s) && Backs(id, s, view[id]) && memStore == old(memStore)[id := s]
      ensures forall i :: 0 <= i < |s.sess| ==> fresh(s.sess[i])
    {
      hide UserAgrees, UserOk;
      assert RedisOk(id);
      s := Load(id, redis[id]);
      memStore := memStore[id := s];
      KeepOthers({id});
      assert RedisOk(id) && CacheOk(id);
    }

    /** Writes redis, then the cache. The caller may have changed the terminals of this one
        user since it found the list. */
    method SaveSessions(s: Sessions, ghost u: User)
      requires ValidBut({s.id}) && Backs(s.id, s, u) && UserOk(s.id, u)
      modifies this`redis, this`memStore, this`view
      ensures Valid() && view == old(view)[s.id := u]
      ensures redis == old(redis)[s.id := u]
      ensures memStore == old(memStore)[s.id := s] && memStore.Keys == old(memStore.Keys) + {s.id}
    {
      AgreesWithItself(u);
      hide UserAgrees, UserOk;
      redis := redis[s.id := s.Value()];
      memStore := memStore[s.id := s];
      view := view[s.id := u];
      KeepOthers({s.id});
      assert RedisOk(s.id) && CacheOk(s.id);
    }

    // ---------- Offline mail ----------

    /** Rewrites the mail of one terminal of a list just found, and saves the list. */
    method StoreMail(s: Sessions, i: nat, it: Session, m: Mail, id: string)
      requires Valid() && id in view && Backs(id, s, view[id]) && MailOk(m)
      requires i < |s.sess| && s.sess[i] == it
      modifies this, it`off
      ensures Valid() && view == old(view)[id := WithMail(old(view[id]), i, m)]
      ensures redis == old(redis)[id := view[id]]
      ensures memStore == old(memStore)[id := s] && memStore.Keys == old(memStore.Keys) + {id}
      ensures s.sess == old(s.sess)
    {
      ghost var u := view[id];
      assert RedisOk(id);
      WithMailOk(id, u, i, m);
      SetOff(it, m, s, i, id, u);
      forall v | v in memStore && v != id
        ensures Untouched(v)
      {
        assert old(CacheOk(v));
      }
      KeepOthers({id});
      SaveSessions(s, WithMail(u, i, m));
    }

    /** The list is user `id`'s, it is cached, and `it` is its first terminal of the type. */
    ghost predicate Located(s: Sessions, i: nat, it: Session?, id: string, plat: Plat)
      reads *
    {
      && id in view && UserOk(id, view[id]) && Backs(id, s, view[id]) && s.id == id
      && i == First(view[id].sess, plat) && |s.sess| == |view[id].sess| && (it == null <==> i == |s.sess|)
      && (it != null ==> it == s.sess[i] && it.Value() == view[id].sess[i] && MailOk(it.off))
      && id in memStore && memStore[id].sess == s.sess
    }

    /** Finds a user's list and the first terminal of a type in it. */
    method Locate(id: string, plat: Plat) returns (s: Sessions?, i: nat, it: Session?)
      requires Valid()
      modifies this`memStore
      ensures Valid()
      ensures s == null <==> id !in view
      ensures s == null ==> memStore == old(memStore)
      ensures s != null ==>
        && fresh(s) && Located(s, i, it, id, plat) && id in memStore && memStore[id].sess == s.sess
        && (it != null ==> it in old(Items(id)) || fresh(it))
        && memStore == old(memStore)[id := memStore[id]] && memStore.Keys == old(memStore.Keys) + {id}
        && (if id in old(memStore) then memStore[id] == old(memStore[id])
            else forall it :: it in s.sess ==> fresh(it))
    {
      hide UserAgrees, UserOk, Backs;
      i, it := 0, null;
      s := FindSessions(id);
      if s != null {
        assert RedisOk(id);
        i, it := Pick(s, plat, id, view[id]);
      }
    }

    /** The list was written back to redis and cached; it has the same terminals as before. */
    twostate predicate Rewrote(id: string, new s: Sessions)
      reads this, s, memStore.Values
    {
      && id in view && redis == old(redis)[id := view[id]]
      && memStore.Keys == old(memStore.Keys) && id in memStore && memStore[id].sess == s.sess
      && forall u :: u in memStore && u != id ==> u in old(memStore) && memStore[u] == old(memStore[u])
    }

    /** Ends a handler: the located terminal gets its new mail, and the list is saved. */
    method Finish(s: Sessions, i: nat, it: Session?, m: Mail, id: string, ghost plat: Plat)
      requires Valid() && Located(s, i, it, id, plat) && (it != null ==> MailOk(m)) && id in view
      modifies this, (if it == null then {} else {it})`off
      ensures Valid()
      ensures view == if it == null then old(view) else old(view)[id := WithMail(old(view[id]), i, m)]
      ensures Rewrote(id, s)
    {
      hide UserOk, UserAgrees, MailOk, Backs, WithMail, First, ValidBut;
      if it == null {
        SaveAgain(s, id);
      } else {
        StoreMail(s, i, it, m, id);
      }
    }

    /** The list is saved as it is. */
    method SaveAgain(s: Sessions, id: string)
      requires Valid() && id in view && Backs(id, s, view[id]) && UserOk(id, view[id])
      modifies this`redis, this`memStore, this`view
      ensures Valid() && view == old(view) && redis == old(redis)[id := view[id]]
      ensures memStore == old(memStore)[id := s] && memStore.Keys == old(memStore.Keys) + {id}
    {
      hide UserOk, UserAgrees;
      SaveSessions(s, view[id]);
    }

    method SavePushMsg(id: string, plat: Plat, msg: string)
      requires Valid()
      modifies this, Items(id)`off
      ensures OneUser(id)
      ensures Valid() && view == Saved(old(view), id, plat, PushKind, msg)
      ensures WroteBack(id, true)
    {
      SavedNowhere(view, id, plat, PushKind, msg);
      hide UserAgrees, UserOk, MailOk, Backs, Located, ValidBut, Saved, First;
      var s, i, it := Locate(id, plat);
      if s != null {
        PutPush(s, i, it, id, plat, msg);
        ProveOneUser(id, memStore[id]);
      }
    }

    /** The located terminal gets its mail with the message added, and the list is saved. */
    method Add(s: Sessions, i: nat, it: Session?, m: Mail, id: string, plat: Plat, ghost kind: Kind, ghost msg: string)
      requires Valid() && Located(s, i, it, id, plat)
      requires it != null ==> MailOk(m) && m == AddMail(it.off, kind, WebOnline(view[id].sess), msg)
      requires kind == CallbackKind ==> !Duplicate(view, id, plat, msg)
      modifies this, (if it == null then {} else {it})`off
      ensures Valid() && view == Saved(old(view), id, plat, kind, msg)
      ensures Rewrote(id, s)
    {
      SavedIs(view, id, plat, kind, msg, m);
      hide UserAgrees, UserOk, MailOk, Backs, Saved, WithMail, AddMail, Rewrote, ValidBut, Located, First, HasTerminal;
      Finish(s, i, it, m, id, plat);
    }

    method PutPush(s: Sessions, i: nat, it: Session?, id: string, plat: Plat, msg: string)
      requires Valid() && Located(s, i, it, id, plat)
      modifies this, (if it == null then {} else {it})`off
      ensures Valid() && view == Saved(old(view), id, plat, PushKind, msg)
      ensures Rewrote(id, s)
    {
      hide UserAgrees, UserOk, MailOk, Backs, ValidBut, Saved, Rewrote, WebOnline;
      var m := NO_MAIL;
      if it != null {
        AddMailOk(it.off, PushKind, WebOnline(view[id].sess), msg);
        m := AddPush(it.off, msg);
      }
      Add(s, i, it, m, id, plat, PushKind, msg);
    }

    method SaveCallbackMsg(id: string, plat: Plat, msg: string)
      requires Valid()
      modifies this, Items(id)`off
      ensures OneUser(id)
      ensures Valid() && view == Saved(old(view), id, plat, CallbackKind, msg)
      ensures WroteBack(id, !Duplicate(old(view), id, plat, msg))
    {
      SavedNowhere(view, id, plat, CallbackKind, msg);
      hide UserAgrees, UserOk, MailOk, Backs, Located, ValidBut, Saved, First, Duplicate;
      var s, i, it := Locate(id, plat);
      if s != null {
        PutCallback(s, i, it, id, plat, msg);
        ProveOneUser(id, memStore[id]);
      }
    }

    /** Returns at once, saving nothing, when the callback is already there. */
    method PutCallback(s: Sessions, i: nat, it: Session?, id: string, plat: Plat, msg: string)
      requires Valid() && Located(s, i, it, id, plat)
      modifies this, (if it == null then {} else {it})`off
      ensures Valid() && view == Saved(old(view), id, plat, CallbackKind, msg)
      ensures if Duplicate(old(view), id, plat, msg) then unchanged(this) else Rewrote(id, s)
    {
      hide UserAgrees, UserOk, MailOk, Backs, Saved, AddMail, WebOnline;
      var m := NO_MAIL;
      if it != null {
        var duplicate := Contains(it.off.cb, msg);
        if duplicate {
          SavedDuplicate(view, id, plat, msg);
          return;
        }
        m := AppendCallback(it.off, msg, WebOnline(view[id].sess));
      }
      Add(s, i, it, m, id, plat, CallbackKind, msg);
    }

    method SaveImMsg(id: string, plat: Plat, msg: string)
      requires Valid()
      modifies this, Items(id)`off
      ensures OneUser(id)
      ensures Valid() && view == Saved(old(view), id, plat, ImKind, msg)
      ensures WroteBack(id, true)
    {
      SavedNowhere(view, id, plat, ImKind, msg);
      hide UserAgrees, UserOk, MailOk, Backs, Located, ValidBut, Saved, First;
      var s, i, it := Locate(id, plat);
      if s != null {
        PutIm(s, i, it, id, plat, msg);
        ProveOneUser(id, memStore[id]);
      }
    }

    method PutIm(s: Sessions, i: nat, it: Session?, id: string, plat: Plat, msg: string)
      requires Valid() && Located(s, i, it, id, plat)
      modifies this, (if it == null then {} else {it})`off
      ensures Valid() && view == Saved(old(view), id, plat, ImKind, msg)
      ensures Rewrote(id, s)
    {
      hide UserAgrees, UserOk, MailOk, Backs, Saved, AddMail, WebOnline;
      var m := NO_MAIL;
      var web := IsWebOnline(s, id, view[id]);
      if it != null {
        m := AppendIm(it.off, web, msg);
      }
      Add(s, i, it, m, id, plat, ImKind, msg);
    }

    /** One box of the located terminal is emptied, and the list is saved. What the terminal held
        is returned. */
    method Clear(s: Sessions, i: nat, it: Session?, id: string, plat: Plat, kind: Kind) returns (before: Option<Mail>)
      requires Valid() && Located(s, i, it, id, plat)
      modifies this, (if it == null then {} else {it})`off
      ensures Valid() && view == Drained(old(view), id, plat, kind)
      ensures Rewrote(id, s)
      ensures before == if HasTerminal(old(view), id, plat) then Some(MailOf(old(view), id, plat)) else None
    {
      hide UserAgrees, UserOk, MailOk, Backs;
      before := None;
      var m := NO_MAIL;
      if it != null {
        AddMailOk(it.off, kind, false, "");
        before := Some(it.off);
        m := TakeMail(it.off, kind);
      }
      DrainedIs(view, id, plat, kind, m);
      hide Drained, WithMail, TakeMail, Rewrote, ValidBut, Located, First, HasTerminal, MailOf;
      Finish(s, i, it, m, id, plat);
    }

    /** The result points into the record that is then cleared, so the caller always reads
        an empty push. */
    method GetPushMsg(id: string, plat: Plat) returns (r: Option<Push>)
      requires Valid()
      modifies this, Items(id)`off
      ensures OneUser(id)
      ensures Valid() && view == Drained(old(view), id, plat, PushKind)
      ensures WroteBack(id, true)
      ensures r == if HasTerminal(old(view), id, plat) then Some(Push(0, "")) else None
    {
      DrainedNowhere(view, id, plat, PushKind);
      hide UserAgrees, UserOk, MailOk, Backs, Located, ValidBut, Drained, First, MailOf, HasTerminal;
      r := None;
      var s, i, it := Locate(id, plat);
      if s != null {
        var before := Clear(s, i, it, id, plat, PushKind);
        if before.Some? {
          r := Some(Push(0, ""));
        }
        ProveOneUser(id, memStore[id]);
      }
    }

    method GetCallbackMsg(id: string, plat: Plat) returns (r: seq<Item>)
      requires Valid()
      modifies this, Items(id)`off
      ensures OneUser(id)
      ensures Valid() && view == Drained(old(view), id, plat, CallbackKind)
      ensures WroteBack(id, true)
      ensures r == MailOf(old(view), id, plat).cb
    {
      DrainedNowhere(view, id, plat, CallbackKind);
      hide UserAgrees, UserOk, MailOk, Backs, Located, ValidBut, Drained, First, MailOf, HasTerminal;
      r := [];
      var s, i, it := Locate(id, plat);
      if s != null {
        var before := Clear(s, i, it, id, plat, CallbackKind);
        if before.Some? {
          r := before.value.cb;
        }
        ProveOneUser(id, memStore[id]);
      }
    }

    method GetImMsg(id: string, plat: Plat) returns (r: seq<Item>)
      requires Valid()
      modifies this, Items(id)`off
      ensures OneUser(id)
      ensures Valid() && view == Drained(old(view), id, plat, ImKind)
      ensures WroteBack(id, true)
      ensures r == MailOf(old(view), id, plat).im
    {
      DrainedNowhere(view, id, plat, ImKind);
      hide UserAgrees, UserOk, MailOk, Backs, Located, ValidBut, Drained, First, MailOf, HasTerminal;
      r := [];
      var s, i, it := Locate(id, plat);
      if s != null {
        var before := Clear(s, i, it, id, plat, ImKind);
        if before.Some? {
          r := before.value.im;
        }
        ProveOneUser(id, memStore[id]);
      }
    }

    // ---------- A comet goes away ----------

    /** Its users' terminals go offline, in memory and in redis, but only those of users who
        happen to be cached. The map is visited in no particular order. */
    method OfflineComet(comet: string)
      requires Valid()
      modifies this`redis, this`view, AllItems()`online
      ensures Valid() && CometLeft(old(view), old(redis), view, redis, memStore.Keys, comet)
    {
      ghost var all, v, r := AllItems(), view, redis;
      NobodyLeft(v, r, comet);
      assert Within(all);
      hide *;
      OfflineAll(comet, v, r, all);
    }

    method OfflineAll(comet: string, ghost v: map<string, User>, ghost r: map<string, User>, ghost all: set<Session>)
      requires Valid() && Within(all) && CometLeft(v, r, view, redis, {}, comet)
      modifies this`redis, this`view, all`online
      ensures Valid() && CometLeft(v, r, view, redis, memStore.Keys, comet)
    {
      PartsStart(memStore.Keys);
      hide *;
      var todo := memStore.Keys;
      ghost var done: set<string> := {};
      while todo != {}
        invariant Valid() && Within(all) && Parts(memStore.Keys, done, todo)
        invariant CometLeft(v, r, view, redis, done, comet)
        decreases todo
      {
        var u :| u in todo;
        PartsNext(memStore.Keys, done, todo, u);
        OfflineNext(u, comet, v, r, done, all);
        todo, done := todo - {u}, done + {u};
      }
      PartsEnd(memStore.Keys, done);
    }

    method OfflineNext(id: string, comet: string, ghost v: map<string, User>, ghost r: map<string, User>,
                       ghost done: set<string>, ghost all: set<Session>)
      requires Valid() && Within(all) && id in memStore && id !in done && CometLeft(v, r, view, redis, done, comet)
      modifies this`redis, this`view, all`online
      ensures Valid() && Within(all) && CometLeft(v, r, view, redis, done + {id}, comet)
    {
      assert CacheOk(id);
      OneMoreLeft(v, r, view, redis, done, comet, id);
      hide UserOk, UserAgrees, CometLeft, LeftComet, Backs, ValidBut;
      OfflineCached(id, comet);
    }

    method OfflineCached(id: string, comet: string)
      requires Valid() && id in memStore && id in view
      modifies this`redis, this`view, Items(id)`online
      ensures Valid() && view == old(view)[id := LeftComet(old(view)[id], comet)]
      ensures redis == if old(view)[id].cometId == comet then old(redis)[id := view[id]] else old(redis)
    {
      assert CacheOk(id);
      OfflineUser(id, memStore[id], comet, view[id]);
    }

    method OfflineUser(id: string, s: Sessions, comet: string, ghost u: User)
      requires Valid() && id in memStore && memStore[id] == s && id in view && view[id] == u && Backs(id, s, u)
      modifies this`redis, this`view, s.sess`online
      ensures Valid() && view == old(view)[id := LeftComet(u, comet)]
      ensures redis == if u.cometId == comet then old(redis)[id := view[id]] else old(redis)
    {
      if s.cometId == comet {
        assert RedisOk(id);
        LeftCometOk(id, u, comet);
        SwitchOff(s, id, u);
        KeepOthersBut(id);
        hide UserOk, UserAgrees;
        Rewrite(id, s, LeftComet(u, comet));
      }
    }

    /** A changed list is written to redis; the cache holds it already. */
    method Rewrite(id: string, s: Sessions, ghost u: User)
      requires ValidBut({id}) && id in memStore && memStore[id] == s && Backs(id, s, u) && UserOk(id, u)
      modifies this`redis, this`view
      ensures Valid() && view == old(view)[id := u] && redis == old(redis)[id := u]
    {
      AgreesWithItself(u);
      hide UserOk, UserAgrees;
      redis := redis[id := s.Value()];
      view := view[id := u];
      KeepOthers({id});
      assert RedisOk(id) && CacheOk(id);
    }

    // ---------- The cache against redis ----------

    /** A cached user agrees with redis on everything but `online` and the comet, and is online
        in memory only if online in redis. */
    lemma CachedAgrees(id: string)
      requires Valid() && id in memStore
      ensures id in redis && memStore[id].Value() == view[id] && UserAgrees(memStore[id].Value(), redis[id])
    {
      assert CacheOk(id) && RedisOk(id);
    }

    /** The user was looked up, and written back as the operation left him if it writes. */
    twostate predicate WroteBack(id: string, writes: bool)
      reads this
    {
      && redis == Stored(old(redis), view, id, writes)
      && memStore.Keys == CachedWith(old(memStore.Keys), view, id)
    }

    /** Users other than `but`, whose entries and terminals did not change, stay in order. */
    twostate lemma KeepOthers(but: set<string>)
      requires old(ValidBut(but))
      requires view.Keys == redis.Keys && memStore.Keys <= redis.Keys
      requires forall u :: u in redis && u !in but ==>
        u in old(redis) && u in old(view) && redis[u] == old(redis[u]) && view[u] == old(view[u])
      requires forall u :: u in redis && u !in but && u !in memStore ==> u !in old(memStore)
      requires forall u :: u in memStore && u !in but ==>
        u in old(memStore) && memStore[u] == old(memStore[u]) && Untouched(u)
      ensures ValidBut(but)
    {
      forall u | u in redis && u !in but
        ensures RedisOk(u)
      {
        assert u in old(redis) && old(RedisOk(u));
      }
      forall u | u in memStore && u !in but
        ensures CacheOk(u)
      {
        assert u in old(memStore) && old(CacheOk(u));
        SameValue(memStore[u]);
      }
    }

    /** The same when only fresh objects and the terminals of user `id` changed. */
    twostate lemma KeepOthersBut(id: string)
      requires old(ValidBut({id})) && unchanged(this)
      requires forall u :: u in memStore && u != id ==> Untouched(u)
      ensures ValidBut({id})
    {
      KeepOthers({id});
    }

    /** Only the cache entry of user `id` may be new, and it shares the same terminals unless
        they were just read. */
    twostate predicate OneUser(id: string)
      reads this, memStore.Values
    {
      OthersKept(id) && OwnItems(id)
    }

    twostate predicate OthersKept(id: string)
      reads this
    {
      forall u :: u in memStore && u != id ==> u in old(memStore) && memStore[u] == old(memStore[u])
    }

    /** Any terminal of user `id` that was not cached before was made since. */
    twostate predicate OwnItems(id: string)
      reads this, memStore.Values
    {
      forall it :: it in Items(id) ==> fresh(it) || it in old(Items(id))
    }

    twostate lemma ProveOneUser(id: string, new s: Sessions)
      requires id in memStore && memStore[id] == s
      requires forall u :: u in memStore && u != id ==> u in old(memStore) && memStore[u] == old(memStore[u])
      requires if id in old(memStore) then s.sess == old(memStore[id].sess) else forall it :: it in s.sess ==> fresh(it)
      ensures OneUser(id)
    {
    }

    twostate predicate Untouched(u: string)
      requires u in old(memStore)
      reads *
    {
      unchanged(old(memStore[u])) && forall it :: it in old(memStore[u].sess) ==> unchanged(it)
    }
  }
}
