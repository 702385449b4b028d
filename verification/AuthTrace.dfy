/** What authentication means over a whole history of the router. */
module AuthTrace {
  import opened Prelude
  import opened Terminals
  import opened Rds
  import opened Logins

  /** Everything that changes the users: login and logout events, notifications (`cached` says
      whether the list was in memory), offline mail saved or drained, comets going away, and the
      router starting anew on the users as redis has them. */
  datatype Event =
    | UserState(msg: LoginMsg)
    | Notified(n: StateNotify, cached: bool)
    | MailSaved(id: string, plat: Plat, kind: Kind, body: string)
    | MailTaken(id: string, plat: Plat, kind: Kind)
    | CometExit(comet: string, users: set<string>)
    | Restarted(found: map<string, User>)

  /** What a terminal knows of its login: the type, the code, and the device token. */
  datatype Login = Login(plat: Plat, code: string, deviceToken: string)

  function LoginOf(t: Terminal): Login
  {
    Login(t.plat, t.authCode, t.iosToken)
  }

  /** Two users' tables with the same authentication data. */
  predicate SameAuth(v: map<string, User>, w: map<string, User>)
  {
    v.Keys == w.Keys && forall u :: u in v ==> SameAuthList(v[u].sess, w[u].sess)
  }

  predicate SameAuthList(ts: seq<Terminal>, us: seq<Terminal>)
  {
    |ts| == |us| && forall i :: 0 <= i < |ts| ==>
      LoginOf(us[i]) == LoginOf(ts[i]) && us[i].login == ts[i].login
  }

  /** Redis has the authentication data that memory has: `Drift.SeenApplies`. */
  function Apply(v: map<string, User>, e: Event): map<string, User>
  {
    match e
    case UserState(msg) => LoginView(v, msg)
    case Notified(n, cached) => NotifyView(v, n, cached)
    case MailSaved(id, plat, kind, body) => Saved(v, id, plat, kind, body)
    case MailTaken(id, plat, kind) => Drained(v, id, plat, kind)
    case CometExit(comet, users) => CometGone(v, users, comet)
    case Restarted(found) => if SameAuth(v, found) then found else v
  }

  /** The users after a history of a router that found these in redis. */
  function Run(stored: map<string, User>, es: seq<Event>): map<string, User>
  {
    if es == [] then stored else Apply(Run(stored, es[..|es| - 1]), es[|es| - 1])
  }

  /** Lists as every history leaves them: well formed, and every terminal logged in. */
  predicate LoginsOnly(v: map<string, User>)
  {
    ViewWellFormed(v) && forall id, t :: id in v && t in v[id].sess ==> t.login
  }

  /** Terminal types that cannot both hold a login: a type and itself, and the two phones. */
  predicate Rivals(p: Plat, q: Plat)
  {
    p == q || Exclusive(p, q)
  }

  /** The login on `plat` or its rival that a list holds. */
  function LoginIn(v: map<string, User>, id: string, plat: Plat): Option<Login>
  {
    var ts := ListOf(v, id);
    var i := ClashAt(ts, plat);
    if i < |ts| then Some(LoginOf(ts[i])) else None
  }

  /** A user without a list has no terminals. */
  function ListOf(v: map<string, User>, id: string): seq<Terminal>
  {
    if id in v then v[id].sess else []
  }

  /** The user's latest login on `plat` or its rival: on which type, with which code and device
      token. One from before the history is the one that redis held. */
  function LatestLogin(stored: map<string, User>, es: seq<Event>, id: string, plat: Plat): Option<Login>
  {
    if es == [] then LoginIn(stored, id, plat)
    else
      var e := es[|es| - 1];
      if e.UserState? && e.msg.login && e.msg.uid == id && Rivals(e.msg.termtype, plat)
      then Some(Login(e.msg.termtype, e.msg.code, e.msg.deviceToken))
      else LatestLogin(stored, es[..|es| - 1], id, plat)
  }

  // ---------- The list mirrors the latest logins ----------

  ghost predicate Mirrors(v: map<string, User>, stored: map<string, User>, es: seq<Event>)
  {
    && ViewWellFormed(v)
    && (forall id, t :: id in v && t in v[id].sess ==>
          t.login && LatestLogin(stored, es, id, t.plat) == Some(LoginOf(t)))
    && (forall id, plat: Plat :: LatestLogin(stored, es, id, plat).Some? ==>
          id in v && exists t :: t in v[id].sess && LoginOf(t) == LatestLogin(stored, es, id, plat).value)
  }

  lemma LoginListMembers(ts: seq<Terminal>, msg: LoginMsg, t: Terminal)
    requires WellFormed(ts) && t in LoginList(ts, msg)
    ensures (t in ts && !Clashes(t, msg.termtype))
         || (LoginOf(t) == Login(msg.termtype, msg.code, msg.deviceToken) && t.login == msg.login)
  {
    LoginListCases(ts, msg);
    OnlyClash(ts, msg.termtype);
    hide WellFormed, LoginList, Exclusive, Clashes, ClashAt;
    var d := ClashAt(ts, msg.termtype);
    if d < |ts| {
      MemberUpdated(ts, d, Renewed(ts[d], msg), t);
      MemberWithout(ts, d, Fresh(msg), t);
    }
  }

  lemma MemberUpdated(ts: seq<Terminal>, d: nat, u: Terminal, t: Terminal)
    requires d < |ts|
    ensures t in ts[d := u] ==> t == u || exists k :: 0 <= k < |ts| && k != d && ts[k] == t
  {
  }

  lemma MemberWithout(ts: seq<Terminal>, d: nat, u: Terminal, t: Terminal)
    requires d < |ts|
    ensures t in ts[..d] + ts[d + 1..] + [u] ==> t == u || exists k :: 0 <= k < |ts| && k != d && ts[k] == t
  {
    if t in ts[..d] + ts[d + 1..] + [u] && t != u {
      var k :| 0 <= k < |ts| - 1 && (ts[..d] + ts[d + 1..])[k] == t;
      assert ts[if k < d then k else k + 1] == t;
    }
  }

  lemma LoginListKeeps(ts: seq<Terminal>, msg: LoginMsg, t: Terminal)
    requires WellFormed(ts) && t in ts && !Clashes(t, msg.termtype)
    ensures t in LoginList(ts, msg)
  {
    var k :| 0 <= k < |ts| && ts[k] == t;
    hide LoginList, WellFormed;
    LoginListKeepsAt(ts, msg, k);
  }

  lemma LoginListKeepsAt(ts: seq<Terminal>, msg: LoginMsg, k: nat)
    requires WellFormed(ts) && k < |ts| && !Clashes(ts[k], msg.termtype)
    ensures ts[k] in LoginList(ts, msg)
  {
    LoginListCases(ts, msg);
    hide WellFormed, LoginList, Exclusive, Clashes, ClashAt, Fresh, Renewed;
    var d, r := ClashAt(ts, msg.termtype), LoginList(ts, msg);
    if d < |ts| && ts[d].plat != msg.termtype {
      StaysWithout(ts, d, k, Fresh(msg));
    } else {
      assert r[k] == ts[k];
    }
  }

  lemma StaysWithout(ts: seq<Terminal>, d: nat, k: nat, u: Terminal)
    requires d < |ts| && k < |ts| && k != d
    ensures ts[k] in ts[..d] + ts[d + 1..] + [u]
  {
    var r := ts[..d] + ts[d + 1..] + [u];
    assert r[if k < d then k else k - 1] == ts[k];
  }

  lemma LoginListHasNew(ts: seq<Terminal>, msg: LoginMsg) returns (u: Terminal)
    requires WellFormed(ts)
    ensures u in LoginList(ts, msg) && LoginOf(u) == Login(msg.termtype, msg.code, msg.deviceToken)
  {
    LoginListCases(ts, msg);
    hide WellFormed, LoginList, Exclusive;
    var d, r := ClashAt(ts, msg.termtype), LoginList(ts, msg);
    u := r[if d < |ts| && ts[d].plat == msg.termtype then d else |r| - 1];
  }

  lemma MailKeepsAuth(u: User, plat: Plat, kind: Kind, body: string)
    ensures SameAuthList(u.sess, SaveMail(u, plat, kind, body).sess)
    ensures SameAuthList(u.sess, DrainMail(u, plat, kind).sess)
  {
  }

  lemma SavedKeepsAuth(v: map<string, User>, id: string, plat: Plat, kind: Kind, body: string)
    ensures SameAuth(v, Saved(v, id, plat, kind, body))
  {
    if id in v {
      MailKeepsAuth(v[id], plat, kind, body);
    }
    hide SaveMail;
  }

  lemma DrainedKeepsAuth(v: map<string, User>, id: string, plat: Plat, kind: Kind)
    ensures SameAuth(v, Drained(v, id, plat, kind))
  {
    if id in v {
      MailKeepsAuth(v[id], plat, kind, "");
    }
    hide DrainMail;
  }

  lemma GoneKeepsAuth(v: map<string, User>, users: set<string>, comet: string)
    ensures SameAuth(v, CometGone(v, users, comet))
  {
  }

  lemma NotifyKeepsAuth(v: map<string, User>, n: StateNotify, cached: bool)
    ensures SameAuth(v, NotifyView(v, n, cached))
  {
  }

  lemma OtherEventsKeepAuth(v: map<string, User>, e: Event)
    requires e.UserState? ==> !e.msg.login
    ensures SameAuth(v, Apply(v, e))
  {
    match e {
      case UserState(msg) =>
      case Notified(n, cached) =>
        NotifyKeepsAuth(v, n, cached);
        hide NotifyView, SameAuth;
      case MailSaved(id, plat, kind, body) => SavedKeepsAuth(v, id, plat, kind, body);
      case MailTaken(id, plat, kind) => DrainedKeepsAuth(v, id, plat, kind);
      case CometExit(comet, users) =>
        GoneKeepsAuth(v, users, comet);
        hide CometGone, SameAuth;
      case Restarted(found) =>
    }
  }

  lemma SameAuthMirrors(v: map<string, User>, w: map<string, User>, stored: map<string, User>,
                        es: seq<Event>, es': seq<Event>)
    requires Mirrors(v, stored, es) && SameAuth(v, w)
    requires forall id, plat: Plat :: LatestLogin(stored, es', id, plat) == LatestLogin(stored, es, id, plat)
    ensures Mirrors(w, stored, es')
  {
    forall u | u in w
      ensures WellFormed(w[u].sess)
    {
      SamePlatsWellFormed(v[u].sess, w[u].sess);
    }
    forall id, t | id in w && t in w[id].sess
      ensures t.login && LatestLogin(stored, es', id, t.plat) == Some(LoginOf(t))
    {
      var k :| 0 <= k < |w[id].sess| && w[id].sess[k] == t;
      assert v[id].sess[k] in v[id].sess;
    }
    forall id, plat: Plat | LatestLogin(stored, es', id, plat).Some?
      ensures id in w && exists t :: t in w[id].sess && LoginOf(t) == LatestLogin(stored, es', id, plat).value
    {
      var t :| t in v[id].sess && LoginOf(t) == LatestLogin(stored, es, id, plat).value;
      var k :| 0 <= k < |v[id].sess| && v[id].sess[k] == t;
      assert w[id].sess[k] in w[id].sess;
    }
  }

  lemma ListAfterLogin(v: map<string, User>, msg: LoginMsg)
    requires msg.login && ViewWellFormed(v)
    ensures WellFormed(ListOf(v, msg.uid)) && msg.uid in LoginView(v, msg)
    ensures LoginView(v, msg)[msg.uid].sess == LoginList(ListOf(v, msg.uid), msg)
    ensures forall u :: u != msg.uid ==> ListOf(LoginView(v, msg), u) == ListOf(v, u)
    ensures LoginView(v, msg).Keys == v.Keys + {msg.uid}
  {
    LoginListCases([], msg);
  }

  lemma LatestAfterLogin(stored: map<string, User>, es: seq<Event>, msg: LoginMsg, id: string, plat: Plat)
    requires msg.login
    ensures LatestLogin(stored, es + [UserState(msg)], id, plat)
         == if msg.uid == id && Rivals(msg.termtype, plat) then Some(Login(msg.termtype, msg.code, msg.deviceToken))
             else LatestLogin(stored, es, id, plat)
  {
    assert (es + [UserState(msg)])[..|es|] == es;
  }

  lemma LoginMirrorsListed(v: map<string, User>, stored: map<string, User>, es: seq<Event>, msg: LoginMsg,
                           id: string, t: Terminal)
    requires Mirrors(v, stored, es) && msg.login
    requires t in ListOf(LoginView(v, msg), id)
    ensures t.login && LatestLogin(stored, es + [UserState(msg)], id, t.plat) == Some(LoginOf(t))
  {
    MirrorsWell(v, stored, es);
    ListAfterLogin(v, msg);
    LatestAfterLogin(stored, es, msg, id, t.plat);
    hide Mirrors, LoginView, LoginList, LatestLogin, WellFormed, ViewWellFormed;
    if id == msg.uid {
      LoginListMembers(ListOf(v, id), msg, t);
    }
    if t in ListOf(v, id) {
      ListedIsLatest(v, stored, es, id, t);
    }
  }

  lemma LoginMirrorsHeld(v: map<string, User>, stored: map<string, User>, es: seq<Event>, msg: LoginMsg,
                         id: string, plat: Plat)
      returns (t: Terminal)
    requires Mirrors(v, stored, es) && msg.login
    requires LatestLogin(stored, es + [UserState(msg)], id, plat).Some?
    ensures t in ListOf(LoginView(v, msg), id)
    ensures LoginOf(t) == LatestLogin(stored, es + [UserState(msg)], id, plat).value
  {
    ListAfterLogin(v, msg);
    LatestAfterLogin(stored, es, msg, id, plat);
    hide Mirrors, LoginView, LoginList, LatestLogin, WellFormed;
    if id == msg.uid && Rivals(msg.termtype, plat) {
      t := LoginListHasNew(ListOf(v, id), msg);
    } else {
      t := HeldBefore(v, stored, es, id, plat);
      HolderIsRival(stored, es, id, plat);
      if id == msg.uid {
        LoginListKeeps(ListOf(v, id), msg, t);
      }
    }
  }

  lemma HeldBefore(v: map<string, User>, stored: map<string, User>, es: seq<Event>, id: string, plat: Plat)
      returns (t: Terminal)
    requires Mirrors(v, stored, es) && LatestLogin(stored, es, id, plat).Some?
    ensures t in ListOf(v, id) && LoginOf(t) == LatestLogin(stored, es, id, plat).value
  {
    hide LatestLogin, WellFormed;
    t :| id in v && t in v[id].sess && LoginOf(t) == LatestLogin(stored, es, id, plat).value;
  }

  lemma LoginMirrors(v: map<string, User>, stored: map<string, User>, es: seq<Event>, msg: LoginMsg)
    requires Mirrors(v, stored, es) && msg.login
    ensures Mirrors(LoginView(v, msg), stored, es + [UserState(msg)])
  {
    var w, es' := LoginView(v, msg), es + [UserState(msg)];
    LoginKeepsLists(v, msg);
    hide LoginView, LoginList, LatestLogin, WellFormed, Rivals;
    forall id, t | id in w && t in w[id].sess
      ensures t.login && LatestLogin(stored, es', id, t.plat) == Some(LoginOf(t))
    {
      LoginMirrorsListed(v, stored, es, msg, id, t);
    }
    forall id, plat: Plat | LatestLogin(stored, es', id, plat).Some?
      ensures id in w && exists t :: t in w[id].sess && LoginOf(t) == LatestLogin(stored, es', id, plat).value
    {
      var t := LoginMirrorsHeld(v, stored, es, msg, id, plat);
      assert id in w && t in w[id].sess;
    }
  }

  lemma LoginKeepsLists(v: map<string, User>, msg: LoginMsg)
    requires ViewWellFormed(v) && msg.login
    ensures ViewWellFormed(LoginView(v, msg))
  {
    ListAfterLogin(v, msg);
    LoginListWellFormed(ListOf(v, msg.uid), msg);
    hide LoginView, LoginList, WellFormed;
    var w := LoginView(v, msg);
    assert forall u :: u in w ==> w[u].sess == ListOf(w, u);
  }

  lemma {:induction false} HolderIsRival(stored: map<string, User>, es: seq<Event>, id: string, plat: Plat)
    ensures LatestLogin(stored, es, id, plat).Some? ==> Rivals(LatestLogin(stored, es, id, plat).value.plat, plat)
  {
    if es != [] {
      HolderIsRival(stored, es[..|es| - 1], id, plat);
    }
  }

  lemma LatestKept(stored: map<string, User>, es: seq<Event>, e: Event)
    requires e.UserState? ==> !e.msg.login
    ensures forall id, plat: Plat :: LatestLogin(stored, es + [e], id, plat) == LatestLogin(stored, es, id, plat)
  {
    assert (es + [e])[..|es|] == es;
  }

  lemma OthersMirror(v: map<string, User>, stored: map<string, User>, es: seq<Event>, e: Event)
    requires Mirrors(v, stored, es) && (e.UserState? ==> !e.msg.login)
    ensures Mirrors(Apply(v, e), stored, es + [e])
  {
    OtherEventsKeepAuth(v, e);
    LatestKept(stored, es, e);
    hide Mirrors, Apply, LatestLogin, SameAuth;
    SameAuthMirrors(v, Apply(v, e), stored, es, es + [e]);
  }

  lemma EventMirrors(v: map<string, User>, stored: map<string, User>, es: seq<Event>, e: Event)
    requires Mirrors(v, stored, es)
    ensures Mirrors(Apply(v, e), stored, es + [e])
  {
    hide Mirrors, LoginView, LatestLogin;
    if e.UserState? && e.msg.login {
      LoginMirrors(v, stored, es, e.msg);
    } else {
      OthersMirror(v, stored, es, e);
    }
  }

  lemma StartMirrors(stored: map<string, User>)
    requires LoginsOnly(stored)
    ensures Mirrors(stored, stored, [])
  {
    forall id, t | id in stored && t in stored[id].sess
      ensures LoginIn(stored, id, t.plat) == Some(LoginOf(t))
    {
      var ts := stored[id].sess;
      var i :| 0 <= i < |ts| && ts[i] == t;
      OneClash(ts, t.plat, i, ClashAt(ts, t.plat));
    }
    forall id, plat: Plat | LoginIn(stored, id, plat).Some?
      ensures id in stored
      ensures exists t :: t in stored[id].sess && LoginOf(t) == LoginIn(stored, id, plat).value
    {
      var ts := stored[id].sess;
      assert ts[ClashAt(ts, plat)] in ts;
    }
  }

  lemma {:induction false} RunMirrors(stored: map<string, User>, es: seq<Event>)
    requires LoginsOnly(stored)
    ensures Mirrors(Run(stored, es), stored, es)
  {
    if es == [] {
      StartMirrors(stored);
    } else {
      var init, e := es[..|es| - 1], es[|es| - 1];
      hide Mirrors, Apply, LatestLogin, LoginsOnly;
      assert es == init + [e];
      RunMirrors(stored, init);
      EventMirrors(Run(stored, init), stored, init, e);
    }
  }

  /** The user's latest login among the type and its rival was on this type, with this code. */
  predicate LatestIs(stored: map<string, User>, es: seq<Event>, id: string, plat: Plat, code: string)
  {
    var l := LatestLogin(stored, es, id, plat);
    l.Some? && l.value.plat == plat && l.value.code == code
  }

  /** Authentication succeeds exactly for the code of the latest login among the terminal's
      type and its rival, if that login was on this type. Logouts, notifications, mail,
      departing comets and restarts of the router never change the answer. */
  lemma AuthMeansLatestLogin(stored: map<string, User>, es: seq<Event>, id: string, plat: Plat, code: string)
    requires LoginsOnly(stored)
    ensures AuthOk(Run(stored, es), id, plat, code) <==> LatestIs(stored, es, id, plat, code)
  {
    RunMirrors(stored, es);
    var v := Run(stored, es);
    hide Mirrors, Run, LatestLogin, WellFormed, LoginsOnly;
    if AuthOk(v, id, plat, code) {
      var i :| 0 <= i < |v[id].sess| && Authorises(v[id].sess[i], plat, code);
      ListedIsLatest(v, stored, es, id, v[id].sess[i]);
    }
    if LatestIs(stored, es, id, plat, code) {
      var t := HeldBefore(v, stored, es, id, plat);
      ListedIsLatest(v, stored, es, id, t);
      var i :| 0 <= i < |v[id].sess| && v[id].sess[i] == t;
      assert Authorises(v[id].sess[i], plat, code);
    }
  }

  lemma ListedIsLatest(v: map<string, User>, stored: map<string, User>, es: seq<Event>, id: string, t: Terminal)
    requires Mirrors(v, stored, es) && t in ListOf(v, id)
    ensures t.login && LatestLogin(stored, es, id, t.plat) == Some(LoginOf(t))
  {
    hide LatestLogin, WellFormed;
  }

  lemma MirrorsWell(v: map<string, User>, stored: map<string, User>, es: seq<Event>)
    requires Mirrors(v, stored, es)
    ensures ViewWellFormed(v)
  {
  }

  /** After any history, what a login asks of the comets concerns the user's latest login among
      the type and its rival: the kick names its type and code, for reason 1 if it was on the same
      type and for reason 2 if not; the notice goes to its device token. */
  lemma CallsNameLatestLogin(stored: map<string, User>, es: seq<Event>, msg: LoginMsg, comets: set<string>, c: Call)
    requires LoginsOnly(stored) && c in CallsMade(Run(stored, es), msg, comets)
    ensures var l := LatestLogin(stored, es, msg.uid, msg.termtype);
      && l.Some? && c.plat == l.value.plat
      && (c.Kick? ==> c.token == l.value.code && c.reason == if l.value.plat == msg.termtype then 1 else 2)
      && (c.Notice? ==> l.value.plat == 2 && c.iosToken == l.value.deviceToken)
  {
    RunMirrors(stored, es);
    var v := Run(stored, es);
    MirrorsWell(v, stored, es);
    hide Mirrors, Run, LatestLogin, CallsMade, WellFormed, LoginsOnly, ViewWellFormed;
    var t := CallConcerns(v, msg, comets, c);
    ListedIsLatest(v, stored, es, msg.uid, t);
    RivalsShare(stored, es, msg.uid, t.plat, msg.termtype);
  }

  /** The terminal that a call of a login concerns. */
  lemma CallConcerns(v: map<string, User>, msg: LoginMsg, comets: set<string>, c: Call) returns (t: Terminal)
    requires ViewWellFormed(v) && c in CallsMade(v, msg, comets)
    ensures msg.login && msg.uid in v && t in v[msg.uid].sess && Rivals(t.plat, msg.termtype) && c.plat == t.plat
    ensures c.Kick? ==> c.token == t.authCode && c.reason == if t.plat == msg.termtype then 1 else 2
    ensures c.Notice? ==> t.plat == 2 && c.iosToken == t.iosToken
  {
    CallsExactly(v, msg, comets);
    hide CallsMade, WellFormed;
    var calls := CallsMade(v, msg, comets);
    t :| t in v[msg.uid].sess && Disturbed(t, msg.termtype);
    assert c == calls[0] || c in calls[1..];
  }

  /** A type and its rival have the same latest login. */
  lemma {:induction false} RivalsShare(stored: map<string, User>, es: seq<Event>, id: string, p: Plat, q: Plat)
    requires Rivals(p, q)
    ensures LatestLogin(stored, es, id, p) == LatestLogin(stored, es, id, q)
  {
    if es == [] {
      ClashSame(ListOf(stored, id), p, q);
    } else {
      RivalsShare(stored, es[..|es| - 1], id, p, q);
    }
  }

  lemma {:induction false} ClashSame(ts: seq<Terminal>, p: Plat, q: Plat)
    requires Rivals(p, q)
    ensures ClashAt(ts, p) == ClashAt(ts, q)
  {
    if ts != [] {
      ClashSame(ts[1..], p, q);
    }
  }

  /** The same table in the eyes of authentication. */
  lemma SameAnswers(v: map<string, User>, w: map<string, User>, id: string, plat: Plat, code: string)
    requires SameAuth(v, w)
    ensures AuthOk(w, id, plat, code) <==> AuthOk(v, id, plat, code)
  {
    if AuthOk(v, id, plat, code) {
      var i :| 0 <= i < |v[id].sess| && Authorises(v[id].sess[i], plat, code);
      assert Authorises(w[id].sess[i], plat, code);
    }
    if AuthOk(w, id, plat, code) {
      var i :| 0 <= i < |w[id].sess| && Authorises(w[id].sess[i], plat, code);
      assert Authorises(v[id].sess[i], plat, code);
    }
  }

  /** Reachable lists: one terminal per type, never both phones, always logged in. */
  lemma ReachableLists(stored: map<string, User>, es: seq<Event>)
    requires LoginsOnly(stored)
    ensures LoginsOnly(Run(stored, es))
  {
    RunMirrors(stored, es);
    var v := Run(stored, es);
    MirrorsWell(v, stored, es);
    hide Mirrors, Run, ViewWellFormed;
    forall id, t | id in v && t in v[id].sess
      ensures t.login
    {
      ListedIsLatest(v, stored, es, id, t);
    }
  }
}
