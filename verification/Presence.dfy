/** What the router takes for online against what is connected: the converse of the joint
    invariant, and the logins that break it. */
module Presence {
  import opened Terminals
  import opened Rds
  import opened Logins
  import opened AuthTrace
  import opened ConnMaps
  import opened Joint
  import FanOut

  /** Whatever will be online under a token once the queue is empty has a live session under it:
      for every type the queue speaks of, and for every terminal of the lists. */
  ghost predicate Honest(s: System)
  {
    && (forall k, token :: EndsOnline(false, s.queue, k, token) ==> Hits(s.maps, k, token))
    && (forall id, t :: id in s.view && t in s.view[id].sess ==> TerminalHonest(s, id, t))
  }

  predicate TerminalHonest(s: System, id: string, t: Terminal)
  {
    var k := Key(id, t.plat);
    EndsOnline(t.online, s.queue, k, t.authCode) ==> Hits(s.maps, k, t.authCode)
  }

  /** The login gives no online terminal another code, unless the notifications on their way end
      with that type offline under the new code. */
  predicate LoginSteady(s: System, msg: LoginMsg)
  {
    msg.login && msg.uid in s.view ==>
      forall t :: t in s.view[msg.uid].sess && Recoded(t, msg) ==>
        !EndsOnline(true, s.queue, Key(msg.uid, msg.termtype), msg.code)
  }

  predicate Recoded(t: Terminal, msg: LoginMsg)
  {
    t.plat == msg.termtype && t.online && t.authCode != msg.code
  }

  lemma {:induction false} OnlineIfOffline(queue: seq<StateNotify>, k: Key, token: string)
    ensures EndsOnline(false, queue, k, token) ==> EndsOnline(true, queue, k, token)
  {
    if queue != [] {
      OnlineIfOffline(queue[..|queue| - 1], k, token);
    }
  }

  // ---------- Sessions that go ----------

  /** A session goes, and its offline notification is queued. */
  predicate Gone(s: System, m: System, k: Key)
  {
    && k in s.maps.sessions && m.maps.sessions == s.maps.sessions - {k}
    && m.view == s.view && m.comet == s.comet
    && m.queue == s.queue + [Offline(s.comet, k, s.maps.sessions[k].token)]
  }

  lemma GoneEnds(s: System, m: System, k: Key, l: Key, token: string, online: bool)
    requires Gone(s, m, k)
    requires EndsOnline(online, s.queue, l, token) ==> Hits(s.maps, l, token)
    ensures EndsOnline(online, m.queue, l, token) ==> Hits(m.maps, l, token)
  {
    EndsOnlineAfter(online, s.queue, Offline(s.comet, k, s.maps.sessions[k].token), l, token);
  }

  lemma GoneHonest(s: System, m: System, k: Key)
    requires Honest(s) && Gone(s, m, k)
    ensures Honest(m)
  {
    forall l, token
      ensures EndsOnline(false, m.queue, l, token) ==> Hits(m.maps, l, token)
    {
      GoneEnds(s, m, k, l, token, false);
    }
    forall id, t | id in m.view && t in m.view[id].sess
      ensures TerminalHonest(m, id, t)
    {
      assert TerminalHonest(s, id, t);
      GoneEnds(s, m, k, Key(id, t.plat), t.authCode, t.online);
    }
  }

  lemma LeaveHonest(s: System, conn: string)
    requires Honest(s)
    ensures Honest(LeaveMove(s, conn))
  {
    if conn in s.maps.ids && s.maps.ids[conn] in s.maps.sessions {
      GoneHonest(s, LeaveMove(s, conn), s.maps.ids[conn]);
    }
  }

  // ---------- Registration ----------

  lemma RegisterHonest(s: System, conn: string, id: string, plat: Plat, token: string)
    requires Invariant(s) && Honest(s)
    ensures Honest(RegisterMove(s, conn, id, plat, token))
  {
    if AuthOk(s.view, id, plat, token) && conn !in s.maps.ids {
      var m, k := RegisterMove(s, conn, id, plat, token), Key(id, plat);
      forall l, code
        ensures EndsOnline(false, m.queue, l, code) ==> Hits(m.maps, l, code)
      {
        RegisterEnds(s, conn, k, token, l, code, false);
      }
      forall u, t | u in m.view && t in m.view[u].sess
        ensures TerminalHonest(m, u, t)
      {
        assert TerminalHonest(s, u, t);
        RegisterEnds(s, conn, k, token, Key(u, t.plat), t.authCode, t.online);
      }
    }
  }

  lemma RegisterEnds(s: System, conn: string, k: Key, token: string, l: Key, code: string, online: bool)
    requires Invariant(s) && AuthOk(s.view, k.id, k.plat, token) && conn !in s.maps.ids
    requires EndsOnline(online, s.queue, l, code) ==> Hits(s.maps, l, code)
    ensures var m := RegisterMove(s, conn, k.id, k.plat, token);
      EndsOnline(online, m.queue, l, code) ==> Hits(m.maps, l, code)
  {
    EndsOnlineAfter(online, s.queue, StateNotify(k.id, k.plat, token, s.comet, true), l, code);
    if l == k && Hits(s.maps, k, code) {
      CodeOf(s, k, token);
    }
    hide EndsOnline, Invariant, AuthOk;
  }

  /** A live session's token is the only code that its type authenticates with. */
  lemma CodeOf(s: System, k: Key, token: string)
    requires Invariant(s) && k in s.maps.sessions && AuthOk(s.view, k.id, k.plat, token)
    ensures s.maps.sessions[k].token == token
  {
    var t := HolderOf(s, k);
    var i :| 0 <= i < |s.view[k.id].sess| && Authorises(s.view[k.id].sess[i], k.plat, token);
    SameTypeSame(s.view[k.id].sess, t, s.view[k.id].sess[i]);
    hide EndsOnline, WellFormed;
  }

  // ---------- Login ----------

  lemma CarryHonest(s: System, msg: LoginMsg)
    requires Invariant(s) && Honest(s)
    ensures Honest(CarryAll(s, CallsOf(s, msg)))
  {
    CarryCalls(s, msg);
    hide CarryAll, CallsOf;
    var calls := CallsOf(s, msg);
    if calls != [] {
      var k := Key(calls[0].id, calls[0].plat);
      if Hits(s.maps, k, calls[0].token) {
        GoneHonest(s, Carry(s, calls[0]), k);
      }
    }
  }

  /** What the calls of a login do to the queue: at most one offline notification is added, for
      the terminal that the login displaces and under its code. */
  lemma CarryEnds(s: System, msg: LoginMsg, token: string)
    requires Invariant(s)
    ensures var c, k := CarryAll(s, CallsOf(s, msg)), Key(msg.uid, msg.termtype);
      && (EndsOnline(true, c.queue, k, token) ==> EndsOnline(true, s.queue, k, token))
      && (forall l :: Hits(c.maps, l, token) ==> Hits(s.maps, l, token))
  {
    CarryCalls(s, msg);
    var calls, k := CallsOf(s, msg), Key(msg.uid, msg.termtype);
    hide CarryAll, CallsOf;
    if calls != [] {
      var l := Key(calls[0].id, calls[0].plat);
      EndsOnlineAfter(true, s.queue, Offline(s.comet, l, calls[0].token), k, token);
    }
  }

  lemma LoginHonest(s: System, msg: LoginMsg)
    requires Invariant(s) && Honest(s) && LoginSteady(s, msg)
    ensures Honest(LoginMove(s, msg))
  {
    CarryHonest(s, msg);
    LoginCarried(s, msg);
    var c, m := CarryAll(s, CallsOf(s, msg)), LoginMove(s, msg);
    hide CarryAll, CallsOf;
    forall id, t | id in m.view && t in m.view[id].sess
      ensures TerminalHonest(m, id, t)
    {
      if id in c.view && t in c.view[id].sess {
        assert TerminalHonest(c, id, t);
      } else {
        ListedHonest(s, msg, t);
      }
    }
  }

  /** A terminal that the login renewed or added. */
  lemma ListedHonest(s: System, msg: LoginMsg, t: Terminal)
    requires Invariant(s) && Honest(s) && LoginSteady(s, msg) && msg.login
    requires t in LoginView(s.view, msg)[msg.uid].sess && (msg.uid in s.view ==> t !in s.view[msg.uid].sess)
    ensures TerminalHonest(CarryAll(s, CallsOf(s, msg)), msg.uid, t)
  {
    CarryHonest(s, msg);
    var c, k := CarryAll(s, CallsOf(s, msg)), Key(msg.uid, msg.termtype);
    if msg.uid in s.view {
      var ts := s.view[msg.uid].sess;
      assert UserKnown(s.comet, msg.uid, s.view[msg.uid]);
      LoginListMembers(ts, msg, t);
      if t.online {
        LoginCarried(s, msg);
        var w := OnlineBefore(ts, msg, t);
        CarryEnds(s, msg, msg.code);
        assert TerminalHonest(c, msg.uid, w);
        assert w.authCode != msg.code ==> Recoded(w, msg);
      }
    }
    hide CarryAll, CallsOf, EndsOnline, LoginList, WellFormed;
  }

  /** A terminal that the login renewed or added is online only if it was. */
  lemma OnlineBefore(ts: seq<Terminal>, msg: LoginMsg, t: Terminal) returns (w: Terminal)
    requires WellFormed(ts) && t in LoginList(ts, msg) && t !in ts && t.online
    ensures w in ts && w.plat == msg.termtype && w.online
  {
    LoginListCases(ts, msg);
    hide LoginList, WellFormed, Exclusive;
    w := ts[ClashAt(ts, msg.termtype)];
  }

  /** A login that is not steady leaves a terminal online without a session. */
  lemma UnsteadyLoginBreaks(s: System, msg: LoginMsg, t: Terminal)
    requires Invariant(s) && msg.login && msg.uid in s.view && t in s.view[msg.uid].sess && Recoded(t, msg)
    requires EndsOnline(true, s.queue, Key(msg.uid, msg.termtype), msg.code)
    ensures var m := LoginMove(s, msg);
      && Renewed(t, msg) in m.view[msg.uid].sess && !TerminalHonest(m, msg.uid, Renewed(t, msg))
  {
    var k := Key(msg.uid, msg.termtype);
    assert UserKnown(s.comet, msg.uid, s.view[msg.uid]);
    SameCodeRenews(s.view[msg.uid].sess, msg, t);
    RecodedEnds(s, msg, t);
    CarryEnds(s, msg, msg.code);
    if Hits(s.maps, k, msg.code) {
      var h := HolderOf(s, k);
      SameTypeSame(s.view[msg.uid].sess, h, t);
    }
    hide CarryAll, CallsOf, EndsOnline, LoginList, WellFormed;
  }

  /** The kick of a login speaks of the old code, not of the new one. */
  lemma RecodedEnds(s: System, msg: LoginMsg, t: Terminal)
    requires Invariant(s) && msg.login && msg.uid in s.view && t in s.view[msg.uid].sess && Recoded(t, msg)
    requires EndsOnline(true, s.queue, Key(msg.uid, msg.termtype), msg.code)
    ensures EndsOnline(true, CarryAll(s, CallsOf(s, msg)).queue, Key(msg.uid, msg.termtype), msg.code)
  {
    CarryCalls(s, msg);
    var u, calls := s.view[msg.uid], CallsOf(s, msg);
    assert UserKnown(s.comet, msg.uid, u);
    if calls != [] {
      var w := OnlyDisplacedIsCalled(u.sess, msg.termtype, u.cometId == s.comet, calls[0]);
      SameClash(u.sess, msg.termtype, t, w);
      hide CarryAll, CallsOf;
      EndsOnlineAfter(true, s.queue, Offline(s.comet, Key(calls[0].id, calls[0].plat), calls[0].token),
        Key(msg.uid, msg.termtype), msg.code);
    }
    hide CarryAll, CallsOf, EndsOnline;
  }

  lemma SameClash(ts: seq<Terminal>, p: Plat, t: Terminal, w: Terminal)
    requires WellFormed(ts) && t in ts && w in ts && Clashes(t, p) && Clashes(w, p)
    ensures t == w
  {
    var i :| 0 <= i < |ts| && ts[i] == t;
    var j :| 0 <= j < |ts| && ts[j] == w;
    OneClash(ts, p, i, j);
  }

  /** A login keeps what is seen honest exactly if it is steady. */
  lemma LoginHonestExactly(s: System, msg: LoginMsg)
    requires Invariant(s) && Honest(s)
    ensures Honest(LoginMove(s, msg)) <==> LoginSteady(s, msg)
  {
    if LoginSteady(s, msg) {
      LoginHonest(s, msg);
    } else {
      var t :| t in s.view[msg.uid].sess && Recoded(t, msg);
      UnsteadyLoginBreaks(s, msg, t);
      hide LoginMove, TerminalHonest, LoginList;
    }
  }

  // ---------- Notifications and mail ----------

  /** A notification that is handled leaves the rest of the queue to say the same. */
  lemma LaterEnds(queue: seq<StateNotify>, k: Key, token: string, online: bool)
    requires queue != []
    ensures var n := queue[0];
      if n.id == k.id && n.termtype == k.plat && n.token == token
      then EndsOnline(n.online, queue[1..], k, token) == EndsOnline(online, queue, k, token)
      else EndsOnline(online, queue[1..], k, token) == EndsOnline(online, queue, k, token)
  {
    EndsOnlineFirst(online, queue, k, token);
  }

  lemma DeliverHonest(s: System, cached: bool)
    requires Invariant(s) && Honest(s)
    ensures Honest(DeliverMove(s, cached))
  {
    if s.queue != [] {
      var n, m := s.queue[0], DeliverMove(s, cached);
      forall k, token
        ensures EndsOnline(false, m.queue, k, token) ==> Hits(m.maps, k, token)
      {
        LaterEnds(s.queue, k, token, false);
        OnlineIfOffline(m.queue, k, token);
      }
      forall id, t | id in m.view && t in m.view[id].sess
        ensures TerminalHonest(m, id, t)
      {
        DeliveredHonest(s, cached, id, t);
      }
    }
  }

  lemma DeliveredHonest(s: System, cached: bool, id: string, t: Terminal)
    requires Invariant(s) && Honest(s) && s.queue != []
    requires id in s.view && t in DeliverMove(s, cached).view[id].sess
    ensures TerminalHonest(DeliverMove(s, cached), id, t)
  {
    var n, m := s.queue[0], DeliverMove(s, cached);
    var k := Key(id, t.plat);
    var i :| 0 <= i < |m.view[id].sess| && m.view[id].sess[i] == t;
    var w := t;
    if n.id == id {
      assert UserKnown(s.comet, id, s.view[id]);
      NotifyAt(s.view, n, cached, i);
      w := s.view[id].sess[i];
    }
    assert w in s.view[id].sess && TerminalHonest(s, id, w);
    LaterEnds(s.queue, k, t.authCode, w.online);
    hide NotifyView, EndsOnline, Invariant, WellFormed;
  }

  lemma MailHonest(s: System, m: System)
    requires Honest(s) && m == s.(view := m.view) && FanOut.SameShape(s.view, m.view)
    ensures Honest(m)
  {
    forall id, t | id in m.view && t in m.view[id].sess
      ensures TerminalHonest(m, id, t)
    {
      var i :| 0 <= i < |m.view[id].sess| && m.view[id].sess[i] == t;
      var w := s.view[id].sess[i];
      assert w in s.view[id].sess && TerminalHonest(s, id, w);
    }
  }

  // ---------- Over all runs ----------

  predicate Steady(comet: string, moves: seq<Move>)
  {
    forall i :: 0 <= i < |moves| && moves[i].LoginEvent? ==> LoginSteady(Joint.Run(comet, moves[..i]), moves[i].msg)
  }

  lemma StepHonest(s: System, move: Move)
    requires Invariant(s) && Honest(s)
    requires move.LoginEvent? ==> LoginSteady(s, move.msg)
    ensures Honest(Joint.Step(s, move))
  {
    hide Honest, Invariant, LoginSteady;
    match move {
      case LoginEvent(msg) => LoginHonest(s, msg);
      case Deliver(cached) => DeliverHonest(s, cached);
      case Registers(conn, id, plat, token) => RegisterHonest(s, conn, id, plat, token);
      case Leaves(conn) => LeaveHonest(s, conn);
      case SavesMail(id, plat, kind, body) =>
        FanOut.SavedShape(s.view, id, plat, kind, body);
        hide Saved, FanOut.SameShape;
        MailHonest(s, Joint.Step(s, move));
      case TakesMail(id, plat, kind) =>
        FanOut.DrainedShape(s.view, id, plat, kind);
        hide Drained, FanOut.SameShape;
        MailHonest(s, Joint.Step(s, move));
    }
  }

  lemma {:induction false} RunHonest(comet: string, moves: seq<Move>)
    requires Orderly(comet, moves) && Steady(comet, moves)
    ensures Honest(Joint.Run(comet, moves))
  {
    if moves != [] {
      var init := moves[..|moves| - 1];
      assert forall i :: 0 <= i < |init| ==> init[..i] == moves[..i];
      RunHonest(comet, init);
      RunKeeps(comet, init);
      hide Honest, Invariant, Joint.Step, LoginSteady;
      StepHonest(Joint.Run(comet, init), moves[|moves| - 1]);
    }
  }

  /** In a run whose logins are safe, what is seen stays honest all along exactly if every login
      is steady. */
  lemma HonestExactly(comet: string, moves: seq<Move>)
    requires Orderly(comet, moves)
    ensures Steady(comet, moves) <==> forall i :: 0 <= i <= |moves| ==> Honest(Joint.Run(comet, moves[..i]))
  {
    hide Invariant, Honest, Joint.Step, LoginSafe, LoginSteady;
    if Steady(comet, moves) {
      forall i | 0 <= i <= |moves|
        ensures Honest(Joint.Run(comet, moves[..i]))
      {
        assert forall j :: 0 <= j < i ==> moves[..i][..j] == moves[..j];
        RunHonest(comet, moves[..i]);
      }
    }
    if forall i :: 0 <= i <= |moves| ==> Honest(Joint.Run(comet, moves[..i])) {
      forall i | 0 <= i < |moves| && moves[i].LoginEvent?
        ensures LoginSteady(Joint.Run(comet, moves[..i]), moves[i].msg)
      {
        LastMove(comet, moves[..i + 1], moves[i]);
        assert moves[..i + 1][..i] == moves[..i];
        assert forall j :: 0 <= j < i ==> moves[..i][..j] == moves[..j];
        RunKeeps(comet, moves[..i]);
        LoginHonestExactly(Joint.Run(comet, moves[..i]), moves[i].msg);
      }
    }
  }

  /** Over all such runs, once no notification is on its way, the router shows online exactly the
      types that have live sessions. */
  lemma OnlineExactly(comet: string, moves: seq<Move>, k: Key)
    requires Orderly(comet, moves) && Steady(comet, moves) && Joint.Run(comet, moves).queue == []
    ensures Shown(Joint.Run(comet, moves), k) <==> k in Joint.Run(comet, moves).maps.sessions
  {
    var s := Joint.Run(comet, moves);
    RunKeeps(comet, moves);
    RunHonest(comet, moves);
    if Shown(s, k) {
      var t :| t in s.view[k.id].sess && t.plat == k.plat && t.online;
      assert TerminalHonest(s, k.id, t);
    }
    if k in s.maps.sessions {
      var t := HolderOf(s, k);
    }
    hide Joint.Run, Orderly, Steady;
  }

  /** A second login of a connected terminal under another code: its session is kicked, and the
      notification of that concerns nobody any more, so the terminal is still shown online when
      nothing is on its way. */
  lemma StaleOnline(s: System, msg: LoginMsg, cached: bool)
    requires Invariant(s) && s.queue == [] && msg.login
    requires var k := Key(msg.uid, msg.termtype); k in s.maps.sessions && s.maps.sessions[k].token != msg.code
    ensures var m, k := DeliverMove(LoginMove(s, msg), cached), Key(msg.uid, msg.termtype);
      m.queue == [] && k !in m.maps.sessions && Shown(m, k)
  {
    var k := Key(msg.uid, msg.termtype);
    var t := HolderOf(s, k);
    StaleLogin(s, msg, t);
    hide LoginMove, Invariant, EndsOnline;
    StaleDelivery(LoginMove(s, msg), k, Renewed(t, msg), cached);
  }

  lemma StaleLogin(s: System, msg: LoginMsg, t: Terminal)
    requires Invariant(s) && s.queue == [] && msg.login
    requires var k := Key(msg.uid, msg.termtype);
      && k in s.maps.sessions && s.maps.sessions[k].token != msg.code
      && k.id in s.view && t in s.view[k.id].sess && Holds(t, k, s.maps.sessions[k].token, s.queue)
    ensures var m, k := LoginMove(s, msg), Key(msg.uid, msg.termtype);
      && k !in m.maps.sessions && m.queue == [Offline(s.comet, k, s.maps.sessions[k].token)]
      && k.id in m.view && WellFormed(m.view[k.id].sess) && Renewed(t, msg) in m.view[k.id].sess
  {
    CarryCalls(s, msg);
    assert Displaced(s, msg, t);
    assert UserKnown(s.comet, msg.uid, s.view[msg.uid]);
    SameCodeRenews(s.view[msg.uid].sess, msg, t);
    LoginListWellFormed(s.view[msg.uid].sess, msg);
    hide CarryAll, CallsOf, LoginList, WellFormed, EndsOnline, Invariant;
  }

  /** The offline notification of a session speaks of the old code. */
  lemma StaleDelivery(m: System, k: Key, w: Terminal, cached: bool)
    requires |m.queue| == 1 && m.queue[0].id == k.id && w.authCode != m.queue[0].token
    requires k.id in m.view && WellFormed(m.view[k.id].sess) && w in m.view[k.id].sess
    requires w.plat == k.plat && w.online
    ensures var r := DeliverMove(m, cached); r.queue == [] && r.maps == m.maps && Shown(r, k)
  {
    var i :| 0 <= i < |m.view[k.id].sess| && m.view[k.id].sess[i] == w;
    NotifyAt(m.view, m.queue[0], cached, i);
    hide NotifyView, WellFormed;
    var r := DeliverMove(m, cached);
    assert r.view[k.id].sess[i] in r.view[k.id].sess;
  }
}
