/** Router and comet together: one comet that stays registered, kicks that reach it, and state
    notifications that travel through a queue and are handled in order. */
module Joint {
  import opened Terminals
  import opened Rds
  import opened Logins
  import opened AuthTrace
  import opened ConnMaps
  import FanOut

  datatype System = System(comet: string, view: map<string, User>, maps: Maps, queue: seq<StateNotify>)

  datatype Move =
    | LoginEvent(msg: LoginMsg)
    | Deliver(cached: bool)
    | Registers(conn: string, id: string, plat: Plat, token: string)
    | Leaves(conn: string)
    | SavesMail(id: string, plat: Plat, kind: Kind, body: string)
    | TakesMail(id: string, plat: Plat, kind: Kind)

  // ---------- Moves ----------

  function Offline(comet: string, k: Key, token: string): StateNotify
  {
    StateNotify(k.id, k.plat, token, comet, false)
  }

  /** The comet carries out one call; a kick that hits reports the session offline. */
  function Carry(s: System, call: Call): System
  {
    if call.Kick? && Hits(s.maps, Key(call.id, call.plat), call.token) then
      s.(maps := ConnMaps.Kick(s.maps, Key(call.id, call.plat), call.token),
         queue := s.queue + [Offline(s.comet, Key(call.id, call.plat), call.token)])
    else s
  }

  function CarryAll(s: System, calls: seq<Call>): System
    decreases calls
  {
    if calls == [] then s else CarryAll(Carry(s, calls[0]), calls[1..])
  }

  function CallsOf(s: System, msg: LoginMsg): seq<Call>
  {
    CallsMade(s.view, msg, {s.comet})
  }

  function LoginMove(s: System, msg: LoginMsg): System
  {
    CarryAll(s, CallsOf(s, msg)).(view := LoginView(s.view, msg))
  }

  function DeliverMove(s: System, cached: bool): System
  {
    if s.queue == [] then s
    else s.(view := NotifyView(s.view, s.queue[0], cached), queue := s.queue[1..])
  }

  function RegisterMove(s: System, conn: string, id: string, plat: Plat, token: string): System
  {
    if AuthOk(s.view, id, plat, token) && conn !in s.maps.ids then
      s.(maps := Register(s.maps, conn, Key(id, plat), token),
         queue := s.queue + [StateNotify(id, plat, token, s.comet, true)])
    else s
  }

  function LeaveMove(s: System, conn: string): System
  {
    if conn in s.maps.ids && s.maps.ids[conn] in s.maps.sessions then
      var k := s.maps.ids[conn];
      s.(maps := Unregister(s.maps, conn), queue := s.queue + [Offline(s.comet, k, s.maps.sessions[k].token)])
    else s
  }

  function Step(s: System, move: Move): System
  {
    match move
    case LoginEvent(msg) => LoginMove(s, msg)
    case Deliver(cached) => DeliverMove(s, cached)
    case Registers(conn, id, plat, token) => RegisterMove(s, conn, id, plat, token)
    case Leaves(conn) => LeaveMove(s, conn)
    case SavesMail(id, plat, kind, body) => s.(view := Saved(s.view, id, plat, kind, body))
    case TakesMail(id, plat, kind) => s.(view := Drained(s.view, id, plat, kind))
  }

  function Run(comet: string, moves: seq<Move>): System
  {
    if moves == [] then System(comet, map[], Maps(map[], map[]), [])
    else Step(Run(comet, moves[..|moves| - 1]), moves[|moves| - 1])
  }

  /** The router sees a terminal of the session's type online: the guard of a kick. */
  predicate Shown(s: System, k: Key)
  {
    k.id in s.view && exists t :: t in s.view[k.id].sess && t.plat == k.plat && t.online
  }

  /** The login displaces terminals of the session's type. */
  predicate Rival(k: Key, msg: LoginMsg)
  {
    msg.login && k.id == msg.uid && Rivals(k.plat, msg.termtype)
  }

  /** Every live session that a login displaces is seen online, or has the very login's type and
      code. */
  predicate LoginSafe(s: System, msg: LoginMsg)
  {
    forall k :: k in s.maps.sessions && Rival(k, msg) ==>
      Shown(s, k) || (k.plat == msg.termtype && s.maps.sessions[k].token == msg.code)
  }

  predicate Orderly(comet: string, moves: seq<Move>)
  {
    forall i :: 0 <= i < |moves| && moves[i].LoginEvent? ==> LoginSafe(Run(comet, moves[..i]), moves[i].msg)
  }

  // ---------- The joint invariant ----------

  /** Whether a terminal that is online or not now will be once the queue is empty. */
  predicate EndsOnline(online: bool, queue: seq<StateNotify>, k: Key, token: string)
  {
    if queue == [] then online
    else
      var n := queue[|queue| - 1];
      if n.id == k.id && n.termtype == k.plat && n.token == token then n.online
      else EndsOnline(online, queue[..|queue| - 1], k, token)
  }

  predicate Holds(t: Terminal, k: Key, token: string, queue: seq<StateNotify>)
  {
    t.id == k.id && t.plat == k.plat && t.authCode == token && t.login && EndsOnline(t.online, queue, k, token)
  }

  /** The live session of `k` has its terminal at the router. */
  predicate Backed(s: System, k: Key)
    requires k in s.maps.sessions
  {
    k.id in s.view && exists t :: t in s.view[k.id].sess && Holds(t, k, s.maps.sessions[k].token, s.queue)
  }

  predicate UserKnown(comet: string, id: string, u: User)
  {
    WellFormed(u.sess) && forall t :: t in u.sess ==> t.id == id && (t.online ==> u.cometId == comet)
  }

  ghost predicate Invariant(s: System)
  {
    && (forall u :: u in s.view ==> UserKnown(s.comet, u, s.view[u]))
    && (forall n :: n in s.queue ==> n.cometId == s.comet)
    && (forall k :: k in s.maps.sessions ==> Backed(s, k))
  }

  lemma EndsOnlineAfter(online: bool, queue: seq<StateNotify>, n: StateNotify, k: Key, token: string)
    ensures EndsOnline(online, queue + [n], k, token)
         == if n.id == k.id && n.termtype == k.plat && n.token == token then n.online
            else EndsOnline(online, queue, k, token)
  {
    assert (queue + [n])[..|queue|] == queue;
  }

  /** Handling the first notification is the same as settling it first. */
  lemma {:induction false} EndsOnlineFirst(online: bool, queue: seq<StateNotify>, k: Key, token: string)
    requires queue != []
    ensures var n := queue[0];
      EndsOnline(online, queue, k, token) ==
        EndsOnline(if n.id == k.id && n.termtype == k.plat && n.token == token then n.online else online,
          queue[1..], k, token)
  {
    var init := queue[..|queue| - 1];
    if init == [] {
      assert queue[1..] == [];
    } else {
      EndsOnlineFirst(online, init, k, token);
      assert queue[1..][..|queue| - 2] == init[1..];
    }
  }

  // ---------- Login ----------

  lemma CarryOne(s: System, calls: seq<Call>)
    requires forall i :: 0 <= i < |calls| ==> (calls[i].Kick? <==> i == 0)
    requires |calls| <= 2
    ensures CarryAll(s, calls) == if calls == [] then s else Carry(s, calls[0])
  {
    if |calls| == 2 {
      var s' := Carry(s, calls[0]);
      assert CarryAll(s', calls[1..]) == CarryAll(Carry(s', calls[1]), calls[1..][1..]);
    }
  }

  /** A connected terminal that the login displaces. */
  predicate Displaced(s: System, msg: LoginMsg, t: Terminal)
  {
    msg.login && msg.uid in s.view && t in s.view[msg.uid].sess && Clashes(t, msg.termtype) && t.online && t.login
  }

  /** The comet's share of a login: only the displaced terminal's session goes. */
  lemma LoginCarried(s: System, msg: LoginMsg)
    requires Invariant(s)
    ensures var m := CarryAll(s, CallsOf(s, msg));
      && m.view == s.view && m.comet == s.comet && m.maps.sessions.Keys <= s.maps.sessions.Keys
      && (forall k :: k in m.maps.sessions ==> m.maps.sessions[k] == s.maps.sessions[k])
      && (forall n :: n in m.queue ==> n.cometId == s.comet)
      && (forall k, online, token :: k in m.maps.sessions ==>
            EndsOnline(online, m.queue, k, token) == EndsOnline(online, s.queue, k, token))
      && (forall t :: Displaced(s, msg, t) ==> !Hits(m.maps, Key(t.id, t.plat), t.authCode))
  {
    var calls := CallsOf(s, msg);
    CarryCalls(s, msg);
    hide CarryAll;
    if calls != [] {
      var k := Key(calls[0].id, calls[0].plat);
      var m := Carry(s, calls[0]);
      forall online, l, token | l != k
        ensures EndsOnline(online, m.queue, l, token) == EndsOnline(online, s.queue, l, token)
      {
        EndsOnlineAfter(online, s.queue, Offline(s.comet, k, calls[0].token), l, token);
      }
    }
  }

  lemma CarryCalls(s: System, msg: LoginMsg)
    requires Invariant(s)
    ensures var calls := CallsOf(s, msg);
      && CarryAll(s, calls) == (if calls == [] then s else Carry(s, calls[0]))
      && (calls != [] ==> calls[0].Kick?)
      && (forall t :: Displaced(s, msg, t) ==>
            calls != [] && (calls[0].id, calls[0].plat, calls[0].token) == (t.id, t.plat, t.authCode))
  {
    var calls := CallsOf(s, msg);
    if msg.login && msg.uid in s.view {
      var u := s.view[msg.uid];
      assert UserKnown(s.comet, msg.uid, u);
      hide WellFormed, Exclusive;
      forall t | t in u.sess && Clashes(t, msg.termtype) && t.online && t.login
        ensures u.cometId == s.comet
        ensures calls != [] && (calls[0].id, calls[0].plat, calls[0].token) == (t.id, t.plat, t.authCode)
      {
        DisplacedIsKicked(u.sess, msg.termtype, t);
      }
    }
    CarryOne(s, calls);
  }

  /** A login brings no terminal online and none of another user in. */
  lemma LoginListKnown(comet: string, id: string, u: User, msg: LoginMsg, t: Terminal)
    requires UserKnown(comet, id, u) && id == msg.uid && t in LoginList(u.sess, msg)
    ensures t.id == id && (t.online ==> u.cometId == comet)
  {
    LoginListCases(u.sess, msg);
    hide WellFormed, LoginList, Exclusive;
    var d := ClashAt(u.sess, msg.termtype);
    assert d < |u.sess| ==> u.sess[d] in u.sess;
  }

  lemma LoginKnows(comet: string, v: map<string, User>, msg: LoginMsg)
    requires forall u :: u in v ==> UserKnown(comet, u, v[u])
    ensures forall u :: u in LoginView(v, msg) ==> UserKnown(comet, u, LoginView(v, msg)[u])
  {
    if msg.login && msg.uid in v {
      var u := v[msg.uid];
      LoginListWellFormed(u.sess, msg);
      hide WellFormed, LoginList;
      forall t | t in LoginList(u.sess, msg)
        ensures t.id == msg.uid && (t.online ==> u.cometId == comet)
      {
        LoginListKnown(comet, msg.uid, u, msg, t);
      }
    }
  }

  /** The terminal of a live session. */
  lemma HolderOf(s: System, k: Key) returns (t: Terminal)
    requires Invariant(s) && k in s.maps.sessions
    ensures k.id in s.view && UserKnown(s.comet, k.id, s.view[k.id])
    ensures t in s.view[k.id].sess && Holds(t, k, s.maps.sessions[k].token, s.queue)
    ensures Shown(s, k) <==> t.online
  {
    assert Backed(s, k);
    t :| t in s.view[k.id].sess && Holds(t, k, s.maps.sessions[k].token, s.queue);
    if Shown(s, k) {
      var u :| u in s.view[k.id].sess && u.plat == k.plat && u.online;
      SameTypeSame(s.view[k.id].sess, t, u);
    }
  }

  lemma SameTypeSame(ts: seq<Terminal>, t: Terminal, u: Terminal)
    requires WellFormed(ts) && t in ts && u in ts && t.plat == u.plat
    ensures t == u
  {
    var i :| 0 <= i < |ts| && ts[i] == t;
    var j :| 0 <= j < |ts| && ts[j] == u;
    if i < j {
    } else if j < i {
    }
  }

  /** A second login under the session's type and code only renews its terminal. */
  lemma SameCodeRenews(ts: seq<Terminal>, msg: LoginMsg, t: Terminal)
    requires WellFormed(ts) && t in ts && t.plat == msg.termtype
    ensures Renewed(t, msg) in LoginList(ts, msg)
  {
    LoginListCases(ts, msg);
    var i :| 0 <= i < |ts| && ts[i] == t;
    OneClash(ts, msg.termtype, i, ClashAt(ts, msg.termtype));
    hide WellFormed, LoginList, Exclusive;
    assert LoginList(ts, msg)[i] == Renewed(t, msg);
  }

  /** A session that survives a safe login keeps its terminal. */
  lemma LoginBacked(s: System, msg: LoginMsg, k: Key)
    requires Invariant(s) && LoginSafe(s, msg)
    requires k in LoginMove(s, msg).maps.sessions
    ensures Backed(LoginMove(s, msg), k)
  {
    LoginCarried(s, msg);
    var m, token := LoginMove(s, msg), s.maps.sessions[k].token;
    hide CarryAll, CallsOf;
    var t := HolderOf(s, k);
    var w := t;
    if msg.login && msg.uid == k.id {
      var ts := s.view[k.id].sess;
      if !Clashes(t, msg.termtype) {
        LoginListKeeps(ts, msg, t);
      } else if !t.online {
        assert Rival(k, msg);
        SameCodeRenews(ts, msg, t);
        w := Renewed(t, msg);
      }
    }
    hide LoginList, EndsOnline, Shown;
    assert w in m.view[k.id].sess && Holds(w, k, token, m.queue);
  }

  lemma LoginKeeps(s: System, msg: LoginMsg)
    requires Invariant(s) && LoginSafe(s, msg)
    ensures Invariant(LoginMove(s, msg))
  {
    LoginKnows(s.comet, s.view, msg);
    LoginCarried(s, msg);
    forall k | k in LoginMove(s, msg).maps.sessions
      ensures Backed(LoginMove(s, msg), k)
    {
      LoginBacked(s, msg, k);
    }
  }

  /** A displaced terminal that is not seen online is not kicked. */
  lemma NotShownNotKicked(s: System, msg: LoginMsg, t: Terminal)
    requires msg.login && msg.uid in s.view && UserKnown(s.comet, msg.uid, s.view[msg.uid])
    requires t in s.view[msg.uid].sess && Clashes(t, msg.termtype) && !t.online
    ensures CallsOf(s, msg) == []
  {
    var ts := s.view[msg.uid].sess;
    var i :| 0 <= i < |ts| && ts[i] == t;
    OneClash(ts, msg.termtype, i, ClashAt(ts, msg.termtype));
  }

  /** An unsafe login leaves a live session without its terminal. */
  lemma UnsafeLoginBreaks(s: System, msg: LoginMsg, k: Key)
    requires Invariant(s) && k in s.maps.sessions && Rival(k, msg) && !Shown(s, k)
    requires k.plat != msg.termtype || s.maps.sessions[k].token != msg.code
    ensures k in LoginMove(s, msg).maps.sessions && !Backed(LoginMove(s, msg), k)
  {
    var t := HolderOf(s, k);
    NotShownNotKicked(s, msg, t);
    var m, ts := LoginMove(s, msg), s.view[k.id].sess;
    assert m.maps == s.maps && m.view[k.id].sess == LoginList(ts, msg);
    forall w | w in LoginList(ts, msg)
      ensures !Holds(w, k, s.maps.sessions[k].token, m.queue)
    {
      LoginListMembers(ts, msg, w);
    }
  }

  /** A login event keeps the joint invariant exactly if it is safe. */
  lemma LoginKeepsExactly(s: System, msg: LoginMsg)
    requires Invariant(s)
    ensures Invariant(LoginMove(s, msg)) <==> LoginSafe(s, msg)
  {
    if LoginSafe(s, msg) {
      LoginKeeps(s, msg);
    } else {
      var k :| k in s.maps.sessions && Rival(k, msg)
        && !(Shown(s, k) || (k.plat == msg.termtype && s.maps.sessions[k].token == msg.code));
      UnsafeLoginBreaks(s, msg, k);
      hide LoginMove;
    }
  }

  /** With no notification on its way every login is safe. */
  lemma QuietLoginsAreSafe(s: System, msg: LoginMsg)
    requires Invariant(s) && s.queue == []
    ensures LoginSafe(s, msg)
  {
    forall k | k in s.maps.sessions && Rival(k, msg)
      ensures Shown(s, k)
    {
      var t := HolderOf(s, k);
    }
  }

  // ---------- Notifications ----------

  /** On a reachable list a notification changes the flag of the terminals it concerns. */
  lemma NotifyAt(v: map<string, User>, n: StateNotify, cached: bool, i: nat)
    requires n.id in v && WellFormed(v[n.id].sess) && i < |v[n.id].sess|
    ensures var t, u := v[n.id].sess[i], NotifyView(v, n, cached)[n.id];
      |u.sess| == |v[n.id].sess| && u.sess[i] == if Concerns(n, t) then t.(online := n.online) else t
  {
    var ts := v[n.id].sess;
    if !n.online && Concerns(n, ts[i]) {
      var d := ConcernedAt(ts, n);
      assert ts[d].plat == ts[i].plat;
    }
  }

  lemma NotifyKnows(s: System, cached: bool)
    requires Invariant(s) && s.queue != []
    ensures var v := NotifyView(s.view, s.queue[0], cached);
      forall u :: u in v ==> UserKnown(s.comet, u, v[u])
  {
    var n := s.queue[0];
    if n.id in s.view {
      var u, w := s.view[n.id], NotifyView(s.view, n, cached)[n.id];
      assert UserKnown(s.comet, n.id, u);
      assert n.cometId == s.comet;
      SamePlatsWellFormed(u.sess, w.sess);
      hide WellFormed;
      forall t | t in w.sess
        ensures t.id == n.id && (t.online ==> w.cometId == s.comet)
      {
        var i :| 0 <= i < |w.sess| && w.sess[i] == t;
        assert u.sess[i] in u.sess;
      }
      assert UserKnown(s.comet, n.id, w);
    }
  }

  lemma DeliverBacked(s: System, cached: bool, k: Key)
    requires Invariant(s) && s.queue != [] && k in s.maps.sessions
    ensures Backed(DeliverMove(s, cached), k)
  {
    var n, m, token := s.queue[0], DeliverMove(s, cached), s.maps.sessions[k].token;
    assert Backed(s, k);
    var t :| t in s.view[k.id].sess && Holds(t, k, token, s.queue);
    EndsOnlineFirst(t.online, s.queue, k, token);
    var i :| 0 <= i < |s.view[k.id].sess| && s.view[k.id].sess[i] == t;
    if n.id == k.id {
      assert UserKnown(s.comet, k.id, s.view[k.id]);
      NotifyAt(s.view, n, cached, i);
    }
    hide NotifyView, WellFormed, EndsOnline;
    var u := m.view[k.id].sess[i];
    assert u in m.view[k.id].sess && Holds(u, k, token, m.queue);
  }

  lemma DeliverKeeps(s: System, cached: bool)
    requires Invariant(s)
    ensures Invariant(DeliverMove(s, cached))
  {
    if s.queue != [] {
      NotifyKnows(s, cached);
      forall k | k in s.maps.sessions
        ensures Backed(DeliverMove(s, cached), k)
      {
        DeliverBacked(s, cached, k);
      }
    }
  }

  // ---------- Registration and end of a connection ----------

  /** A new notification that does not concern a session leaves its terminal in place. */
  lemma StillBacked(s: System, m: System, k: Key, n: StateNotify)
    requires k in s.maps.sessions && k in m.maps.sessions && Backed(s, k)
    requires m.maps.sessions[k].token == s.maps.sessions[k].token && m.view == s.view && m.queue == s.queue + [n]
    requires Key(n.id, n.termtype) == k ==> n.online
    ensures Backed(m, k)
  {
    var token := s.maps.sessions[k].token;
    var t :| t in s.view[k.id].sess && Holds(t, k, token, s.queue);
    EndsOnlineAfter(t.online, s.queue, n, k, token);
    assert Holds(t, k, token, m.queue);
  }

  lemma RegisterKeeps(s: System, conn: string, id: string, plat: Plat, token: string)
    requires Invariant(s)
    ensures Invariant(RegisterMove(s, conn, id, plat, token))
  {
    var m, k, n := RegisterMove(s, conn, id, plat, token), Key(id, plat), StateNotify(id, plat, token, s.comet, true);
    if AuthOk(s.view, id, plat, token) && conn !in s.maps.ids {
      forall l | l in m.maps.sessions
        ensures Backed(m, l)
      {
        if l != k {
          StillBacked(s, m, l, n);
        } else {
          var i :| 0 <= i < |s.view[id].sess| && Authorises(s.view[id].sess[i], plat, token);
          var t := s.view[id].sess[i];
          assert UserKnown(s.comet, id, s.view[id]);
          EndsOnlineAfter(t.online, s.queue, n, k, token);
          assert t in m.view[id].sess && Holds(t, k, token, m.queue);
        }
      }
    }
  }

  lemma LeaveKeeps(s: System, conn: string)
    requires Invariant(s)
    ensures Invariant(LeaveMove(s, conn))
  {
    var m := LeaveMove(s, conn);
    if conn in s.maps.ids && s.maps.ids[conn] in s.maps.sessions {
      var k := s.maps.ids[conn];
      forall l | l in m.maps.sessions
        ensures Backed(m, l)
      {
        StillBacked(s, m, l, Offline(s.comet, k, s.maps.sessions[k].token));
      }
    }
  }

  // ---------- Offline mail ----------

  lemma MailKeeps(s: System, m: System)
    requires Invariant(s) && m == s.(view := m.view) && FanOut.SameShape(s.view, m.view)
    ensures Invariant(m)
  {
    forall u | u in m.view
      ensures UserKnown(m.comet, u, m.view[u])
    {
      assert UserKnown(s.comet, u, s.view[u]);
      SamePlatsWellFormed(s.view[u].sess, m.view[u].sess);
      hide WellFormed;
      forall t | t in m.view[u].sess
        ensures t.id == u && (t.online ==> m.view[u].cometId == s.comet)
      {
        var i :| 0 <= i < |m.view[u].sess| && m.view[u].sess[i] == t;
        assert s.view[u].sess[i] in s.view[u].sess;
      }
    }
    forall k | k in m.maps.sessions
      ensures Backed(m, k)
    {
      assert Backed(s, k);
      var t :| t in s.view[k.id].sess && Holds(t, k, s.maps.sessions[k].token, s.queue);
      var i :| 0 <= i < |s.view[k.id].sess| && s.view[k.id].sess[i] == t;
      var w := m.view[k.id].sess[i];
      assert w in m.view[k.id].sess && Holds(w, k, s.maps.sessions[k].token, s.queue);
    }
  }

  lemma StepKeeps(s: System, move: Move)
    requires Invariant(s)
    requires move.LoginEvent? ==> LoginSafe(s, move.msg)
    ensures Invariant(Step(s, move))
  {
    hide Invariant, LoginSafe;
    match move {
      case LoginEvent(msg) => LoginKeeps(s, msg);
      case Deliver(cached) => DeliverKeeps(s, cached);
      case Registers(conn, id, plat, token) => RegisterKeeps(s, conn, id, plat, token);
      case Leaves(conn) => LeaveKeeps(s, conn);
      case SavesMail(id, plat, kind, body) =>
        FanOut.SavedShape(s.view, id, plat, kind, body);
        hide Saved, FanOut.SameShape;
        MailKeeps(s, Step(s, move));
      case TakesMail(id, plat, kind) =>
        FanOut.DrainedShape(s.view, id, plat, kind);
        hide Drained, FanOut.SameShape;
        MailKeeps(s, Step(s, move));
    }
  }

  lemma {:induction false} RunKeeps(comet: string, moves: seq<Move>)
    requires Orderly(comet, moves)
    ensures Invariant(Run(comet, moves)) && Run(comet, moves).comet == comet
  {
    if moves != [] {
      var init := moves[..|moves| - 1];
      assert forall i :: 0 <= i < |init| ==> init[..i] == moves[..i];
      RunKeeps(comet, init);
      StepKeeps(Run(comet, init), moves[|moves| - 1]);
      CometStays(Run(comet, init), moves[|moves| - 1]);
    }
  }

  /** The joint invariant holds all along a run exactly if every login in it is safe. */
  lemma OrderlyExactly(comet: string, moves: seq<Move>)
    ensures Orderly(comet, moves) <==> forall i :: 0 <= i <= |moves| ==> Invariant(Run(comet, moves[..i]))
  {
    hide Invariant, Step, LoginSafe;
    if Orderly(comet, moves) {
      forall i | 0 <= i <= |moves|
        ensures Invariant(Run(comet, moves[..i]))
      {
        assert forall j :: 0 <= j < i ==> moves[..i][..j] == moves[..j];
        RunKeeps(comet, moves[..i]);
      }
    }
    if forall i :: 0 <= i <= |moves| ==> Invariant(Run(comet, moves[..i])) {
      forall i | 0 <= i < |moves| && moves[i].LoginEvent?
        ensures LoginSafe(Run(comet, moves[..i]), moves[i].msg)
      {
        LastMove(comet, moves[..i + 1], moves[i]);
        assert moves[..i + 1][..i] == moves[..i];
        LoginKeepsExactly(Run(comet, moves[..i]), moves[i].msg);
      }
    }
  }

  lemma LastMove(comet: string, moves: seq<Move>, last: Move)
    requires moves != [] && moves[|moves| - 1] == last && last.LoginEvent?
    ensures Run(comet, moves) == LoginMove(Run(comet, moves[..|moves| - 1]), last.msg)
  {
  }

  lemma CometStays(s: System, move: Move)
    ensures Step(s, move).comet == s.comet
  {
    if move.LoginEvent? {
      CarryStays(s, CallsOf(s, move.msg));
    }
  }

  lemma {:induction false} CarryStays(s: System, calls: seq<Call>)
    ensures CarryAll(s, calls).comet == s.comet
    decreases calls
  {
    if calls != [] {
      CarryStays(Carry(s, calls[0]), calls[1..]);
    }
  }

  // ---------- Results ----------

  /** Every live session has a terminal at the router under the session's own token, and once
      the notifications on their way are handled that terminal is online. */
  lemma {:induction false} LiveSessionsAreKnown(comet: string, moves: seq<Move>, k: Key)
    requires Orderly(comet, moves) && k in Run(comet, moves).maps.sessions
    ensures var s := Run(comet, moves);
      && AuthOk(s.view, k.id, k.plat, s.maps.sessions[k].token)
      && exists t :: t in s.view[k.id].sess && t.plat == k.plat && t.authCode == s.maps.sessions[k].token
           && t.login && (s.queue == [] ==> t.online && s.view[k.id].cometId == comet)
  {
    RunKeeps(comet, moves);
    var s := Run(comet, moves);
    assert Backed(s, k);
    var t :| t in s.view[k.id].sess && Holds(t, k, s.maps.sessions[k].token, s.queue);
    var i :| 0 <= i < |s.view[k.id].sess| && s.view[k.id].sess[i] == t;
    assert Authorises(s.view[k.id].sess[i], k.plat, s.maps.sessions[k].token);
    assert UserKnown(comet, k.id, s.view[k.id]);
  }

  /** One user never has a live Android session and a live iOS session. */
  lemma {:induction false} NeverBothPhones(comet: string, moves: seq<Move>, id: string)
    requires Orderly(comet, moves)
    ensures var live := Run(comet, moves).maps.sessions;
      !(Key(id, PLAT_ANDROID) in live && Key(id, PLAT_IOS) in live)
  {
    RunKeeps(comet, moves);
    var s := Run(comet, moves);
    var a, b := Key(id, PLAT_ANDROID), Key(id, PLAT_IOS);
    if a in s.maps.sessions && b in s.maps.sessions {
      assert Backed(s, a) && Backed(s, b) && UserKnown(comet, id, s.view[id]);
      var t :| t in s.view[id].sess && Holds(t, a, s.maps.sessions[a].token, s.queue);
      var u :| u in s.view[id].sess && Holds(u, b, s.maps.sessions[b].token, s.queue);
      NoRivals(s.view[id].sess, t, u);
    }
  }

  /** With the one phone's session live, a login of the other phone and its registration leave
      both live exactly if the router did not see the first one online. */
  lemma PhoneLoginExactly(s: System, msg: LoginMsg, k: Key, conn: string)
    requires Invariant(s) && k in s.maps.sessions && conn !in s.maps.ids
    requires msg.login && k.id == msg.uid && Exclusive(k.plat, msg.termtype)
    ensures var live := RegisterMove(LoginMove(s, msg), conn, msg.uid, msg.termtype, msg.code).maps.sessions;
      Key(msg.uid, msg.termtype) in live && (k in live <==> !Shown(s, k))
  {
    var m := LoginMove(s, msg);
    var t := HolderOf(s, k);
    LoginCarried(s, msg);
    CarryIds(s, msg);
    NewLoginIsAuthorised(s, msg);
    if Shown(s, k) {
      assert Displaced(s, msg, t);
    } else {
      UnsafeLoginBreaks(s, msg, k);
    }
    hide CarryAll, CallsOf, LoginView, AuthOk, EndsOnline, Shown;
  }

  lemma CarryIds(s: System, msg: LoginMsg)
    requires Invariant(s)
    ensures LoginMove(s, msg).maps.ids.Keys <= s.maps.ids.Keys
  {
    CarryCalls(s, msg);
    hide CarryAll, CallsOf;
  }

  lemma NewLoginIsAuthorised(s: System, msg: LoginMsg)
    requires msg.login && (msg.uid in s.view ==> WellFormed(s.view[msg.uid].sess))
    ensures AuthOk(LoginView(s.view, msg), msg.uid, msg.termtype, msg.code)
  {
    if msg.uid in s.view {
      var ts := s.view[msg.uid].sess;
      var u := LoginListHasNew(ts, msg);
      LoginListMembers(ts, msg, u);
      var i :| 0 <= i < |LoginList(ts, msg)| && LoginList(ts, msg)[i] == u;
      hide LoginList, WellFormed;
      assert Authorises(LoginView(s.view, msg)[msg.uid].sess[i], msg.termtype, msg.code);
    } else {
      assert Authorises(LoginView(s.view, msg)[msg.uid].sess[0], msg.termtype, msg.code);
    }
  }

  lemma NoRivals(ts: seq<Terminal>, t: Terminal, u: Terminal)
    requires WellFormed(ts) && t in ts && u in ts
    ensures !Exclusive(t.plat, u.plat)
  {
    var i :| 0 <= i < |ts| && ts[i] == t;
    var j :| 0 <= j < |ts| && ts[j] == u;
    if i == j {
    } else if i < j {
    } else {
      assert !Exclusive(ts[j].plat, ts[i].plat);
    }
  }

  /** Order matters: a login handled while the other phone's online notification is still on
      its way kicks nobody, and both phones end up live. */
  lemma PendingNotificationLetsBothIn(comet: string, id: string, a: string, b: string, c: string, d: string)
    requires c != d
    ensures var moves := [
        LoginEvent(LoginMsg(id, PLAT_ANDROID, a, "", true)), Registers(c, id, PLAT_ANDROID, a),
        LoginEvent(LoginMsg(id, PLAT_IOS, b, "", true)), Registers(d, id, PLAT_IOS, b)];
      var live := Run(comet, moves).maps.sessions;
      !Orderly(comet, moves) && Key(id, PLAT_ANDROID) in live && Key(id, PLAT_IOS) in live
  {
    var m0, m1 := LoginMsg(id, PLAT_ANDROID, a, "", true), LoginMsg(id, PLAT_IOS, b, "", true);
    var moves := [LoginEvent(m0), Registers(c, id, PLAT_ANDROID, a), LoginEvent(m1), Registers(d, id, PLAT_IOS, b)];
    assert moves[..3][..2] == moves[..2] && moves[..2][..1] == moves[..1] && moves[..1][..0] == [];
    var s1 := Run(comet, moves[..1]);
    assert s1 == LoginMove(Run(comet, []), m0);
    assert s1.view == map[id := User(id, "", [Fresh(m0)])];
    var s2 := Run(comet, moves[..2]);
    assert Authorises(s1.view[id].sess[0], PLAT_ANDROID, a);
    assert s2 == RegisterMove(s1, c, id, PLAT_ANDROID, a);
    assert s2.queue == [StateNotify(id, PLAT_ANDROID, a, comet, true)];
    PendingLogin(s2, m0, m1);
    var s3 := Run(comet, moves[..3]);
    assert s3 == LoginMove(s2, m1);
    assert Authorises(s3.view[id].sess[0], PLAT_IOS, b);
    assert Run(comet, moves) == RegisterMove(s3, d, id, PLAT_IOS, b);
  }

  lemma PendingLogin(s: System, m0: LoginMsg, m1: LoginMsg)
    requires s.view == map[m0.uid := User(m0.uid, "", [Fresh(m0)])]
    requires m1.uid == m0.uid && m0.login && m1.login && m0.termtype == PLAT_ANDROID && m1.termtype == PLAT_IOS
    ensures LoginMove(s, m1) == s.(view := map[m0.uid := User(m0.uid, "", [Fresh(m1)])])
  {
    LoginListCases([Fresh(m0)], m1);
    assert ClashAt([Fresh(m0)], PLAT_IOS) == 0;
    assert LoginList([Fresh(m0)], m1) == [Fresh(m1)];
    assert CallsOf(s, m1) == [];
    assert LoginView(s.view, m1) == map[m0.uid := User(m0.uid, "", [Fresh(m1)])];
  }
}
