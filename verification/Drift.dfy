/** Memory against redis, over whole histories of a router that may be started anew at any time on
    what redis holds: for whom the two differ, and since when. */
module Drift {
  import opened Terminals
  import opened Rds
  import opened Logins
  import AuthTrace

  /** The users as seen, the users as stored, and who is cached. */
  datatype Store = Store(view: map<string, User>, redis: map<string, User>, cached: set<string>)

  /** A store that was just opened: redis has these users, and nothing is in memory. */
  function Opened(stored: map<string, User>): Store
  {
    Store(stored, stored, {})
  }

  datatype Event =
    | UserState(msg: LoginMsg)
    | Notified(n: StateNotify)
    | MailSaved(id: string, plat: Plat, kind: Kind, body: string)
    | MailTaken(id: string, plat: Plat, kind: Kind)
    | LookedUp(id: string)
    | CometExit(comet: string)
    | Restarted

  /** The effect of an operation on one user, who is written back or not. */
  function Touched(s: Store, v: map<string, User>, id: string, writes: bool): Store
  {
    Store(v, Stored(s.redis, v, id, writes), CachedWith(s.cached, v, id))
  }

  predicate Skips(s: Store, kind: Kind, id: string, plat: Plat, body: string)
  {
    kind == CallbackKind && Duplicate(s.view, id, plat, body)
  }

  function Apply(s: Store, e: Event): Store
  {
    match e
    case UserState(msg) => if msg.login then Touched(s, LoginView(s.view, msg), msg.uid, true) else s
    case Notified(n) => Touched(s, NotifyView(s.view, n, n.id in s.cached), n.id, !EarlyReturn(s.view, n))
    case MailSaved(id, plat, kind, body) =>
      Touched(s, Saved(s.view, id, plat, kind, body), id, !Skips(s, kind, id, plat, body))
    case MailTaken(id, plat, kind) => Touched(s, Drained(s.view, id, plat, kind), id, true)
    case LookedUp(id) => Touched(s, s.view, id, false)
    case CometExit(comet) =>
      Store(CometGone(s.view, s.cached, comet), RedisLeft(s, comet), s.cached)
    case Restarted => Opened(s.redis)
  }

  function RedisLeft(s: Store, comet: string): map<string, User>
  {
    map u | u in s.redis ::
      if u in s.cached && u in s.view && s.view[u].cometId == comet then LeftComet(s.view[u], comet) else s.redis[u]
  }

  function Run(stored: map<string, User>, es: seq<Event>): Store
  {
    if es == [] then Opened(stored) else Apply(Run(stored, es[..|es| - 1]), es[|es| - 1])
  }

  // ---------- What every history keeps ----------

  ghost predicate Agree(s: Store)
  {
    && s.view.Keys == s.redis.Keys && s.cached <= s.view.Keys
    && (forall u :: u in s.view ==> UserAgrees(s.view[u], s.redis[u]))
    && (forall u :: u in s.view && u !in s.cached ==> s.view[u] == s.redis[u])
  }

  lemma TouchedAgrees(s: Store, v: map<string, User>, id: string, writes: bool)
    requires Agree(s)
    requires forall u :: u in v && u != id ==> u in s.view && v[u] == s.view[u]
    requires s.view.Keys <= v.Keys && (id in v && id !in s.view ==> writes)
    requires !writes && id in v ==> UserAgrees(v[id], s.redis[id])
    ensures Agree(Touched(s, v, id, writes))
  {
    hide UserAgrees;
    if writes && id in v {
      AgreesWithHimself(v[id]);
    }
  }

  lemma AgreesWithHimself(u: User)
    ensures UserAgrees(u, u)
  {
  }

  lemma OpenedAgrees(stored: map<string, User>)
    ensures Agree(Opened(stored))
  {
    forall u | u in stored
      ensures UserAgrees(stored[u], stored[u])
    {
      AgreesWithHimself(stored[u]);
    }
  }

  lemma OfflineAgrees(u: User, stored: User, n: StateNotify, cached: bool)
    requires UserAgrees(u, stored)
    ensures UserAgrees(OfflineUser(u, n, cached), stored)
  {
  }

  lemma ExitAgrees(s: Store, comet: string)
    requires Agree(s)
    ensures Agree(Apply(s, CometExit(comet)))
  {
  }

  lemma NotifiedAgrees(s: Store, n: StateNotify)
    requires Agree(s)
    ensures Agree(Apply(s, Notified(n)))
  {
    if n.id in s.view {
      OfflineAgrees(s.view[n.id], s.redis[n.id], n, n.id in s.cached);
    }
    hide Agree, OfflineUser, UserAgrees, MarkOnline;
    TouchedAgrees(s, NotifyView(s.view, n, n.id in s.cached), n.id, !EarlyReturn(s.view, n));
  }

  lemma SavedElsewhere(v: map<string, User>, id: string, plat: Plat, kind: Kind, body: string)
    ensures Saved(v, id, plat, kind, body).Keys == v.Keys
    ensures forall u :: u in v && u != id ==> Saved(v, id, plat, kind, body)[u] == v[u]
  {
    hide SaveMail;
  }

  lemma MailSavedAgrees(s: Store, id: string, plat: Plat, kind: Kind, body: string)
    requires Agree(s)
    ensures Agree(Apply(s, MailSaved(id, plat, kind, body)))
  {
    var w := Saved(s.view, id, plat, kind, body);
    SkipChangesNothing(s, kind, id, plat, body);
    SavedElsewhere(s.view, id, plat, kind, body);
    assert id in s.view ==> UserAgrees(s.view[id], s.redis[id]);
    assert Apply(s, MailSaved(id, plat, kind, body)) == Touched(s, w, id, !Skips(s, kind, id, plat, body));
    hide Agree, Saved, UserAgrees, Skips, Touched, Apply;
    TouchedAgrees(s, w, id, !Skips(s, kind, id, plat, body));
  }

  lemma StepAgrees(s: Store, e: Event)
    requires Agree(s)
    ensures Agree(Apply(s, e))
  {
    match e {
      case UserState(msg) =>
        if msg.login {
          hide Agree, LoginUser;
          TouchedAgrees(s, LoginView(s.view, msg), msg.uid, true);
        }
      case Notified(n) => NotifiedAgrees(s, n);
      case MailSaved(id, plat, kind, body) => MailSavedAgrees(s, id, plat, kind, body);
      case MailTaken(id, plat, kind) =>
        hide Agree, DrainMail, UserAgrees;
        TouchedAgrees(s, Drained(s.view, id, plat, kind), id, true);
      case LookedUp(id) =>
        TouchedAgrees(s, s.view, id, false);
      case CometExit(comet) => ExitAgrees(s, comet);
      case Restarted => OpenedAgrees(s.redis);
    }
  }

  lemma SkipChangesNothing(s: Store, kind: Kind, id: string, plat: Plat, body: string)
    ensures Skips(s, kind, id, plat, body) ==> Saved(s.view, id, plat, kind, body) == s.view
  {
    if Skips(s, kind, id, plat, body) {
      var u, i := s.view[id], First(s.view[id].sess, plat);
      assert u.sess[i := u.sess[i]] == u.sess;
    }
  }

  lemma {:induction false} RunAgrees(stored: map<string, User>, es: seq<Event>)
    ensures Agree(Run(stored, es))
  {
    hide Agree, Apply;
    if es == [] {
      OpenedAgrees(stored);
    } else {
      RunAgrees(stored, es[..|es| - 1]);
      StepAgrees(Run(stored, es[..|es| - 1]), es[|es| - 1]);
    }
  }

  /** The comet that is seen for a user: none before the first notification; then that of the
      latest one, but for an early return on a list that was cached, which is of no consequence;
      and after a restart the one that redis holds. */
  lemma CometFollows(s: Store, e: Event, u: string)
    requires Agree(s) && u in Apply(s, e).view
    ensures Apply(s, e).view[u].cometId ==
      if u !in s.view then ""
      else if e.Restarted? then s.redis[u].cometId
      else if e.Notified? && e.n.id == u && !(EarlyReturn(s.view, e.n) && u in s.cached) then e.n.cometId
      else s.view[u].cometId
  {
    match e {
      case MailSaved(id, plat, kind, body) =>
        hide AddMail, First, UserAgrees;
      case _ =>
        hide DrainMail, LoginList, UserAgrees, MarkOnline, AllOffline, ConcernedAt;
    }
  }

  // ---------- For whom memory and redis differ ----------

  predicate Differs(s: Store, u: string)
  {
    u in s.view && u in s.redis && s.view[u] != s.redis[u]
  }

  /** The early return that changes what is seen: it takes a terminal offline that was online,
      or gives a user who had to be read from redis another comet. */
  predicate OpensGap(s: Store, e: Event, u: string)
  {
    && e.Notified? && e.n.id == u && EarlyReturn(s.view, e.n)
    && (s.view[u].sess[ConcernedAt(s.view[u].sess, e.n)].online || (u !in s.cached && s.view[u].cometId != e.n.cometId))
  }

  /** The operation writes the user back, or forgets what was in memory. */
  predicate Closes(s: Store, e: Event, u: string)
  {
    match e
    case UserState(msg) => msg.login && msg.uid == u
    case Notified(n) => n.id == u && u in s.view && !EarlyReturn(s.view, n)
    case MailSaved(id, plat, kind, body) => id == u && u in s.view && !Skips(s, kind, id, plat, body)
    case MailTaken(id, _, _) => id == u && u in s.view
    case LookedUp(_) => false
    case CometExit(comet) => u in s.cached && u in s.view && s.view[u].cometId == comet
    case Restarted => u in s.view
  }

  /** An early return makes a user in step differ exactly if it opens a gap. */
  lemma GapExactly(u: User, n: StateNotify, cached: bool)
    requires ConcernedAt(u.sess, n) < |u.sess|
    ensures OfflineUser(u, n, cached) != u <==>
            u.sess[ConcernedAt(u.sess, n)].online || (!cached && u.cometId != n.cometId)
  {
    var i, w := ConcernedAt(u.sess, n), OfflineUser(u, n, cached);
    assert w.sess[i] == u.sess[i].(online := false);
    if !u.sess[i].online && (cached || u.cometId == n.cometId) {
      assert w.sess == u.sess;
    }
  }

  /** A gap is never closed by another early return. */
  lemma GapStays(u: User, stored: User, n: StateNotify)
    requires UserAgrees(u, stored) && u != stored && ConcernedAt(u.sess, n) < |u.sess|
    ensures OfflineUser(u, n, true) != stored
  {
    var w, i := OfflineUser(u, n, true), ConcernedAt(u.sess, n);
    if u.cometId == stored.cometId {
      assert u.sess != stored.sess;
      var k :| 0 <= k < |u.sess| && u.sess[k] != stored.sess[k];
      assert TerminalAgrees(u.sess[k], stored.sess[k]);
      assert !w.sess[k].online && stored.sess[k].online;
    }
  }

  lemma NotifyDiffers(s: Store, n: StateNotify, u: string)
    requires Agree(s) && EarlyReturn(s.view, n) && n.id == u
    ensures Differs(Apply(s, Notified(n)), u) <==> Differs(s, u) || OpensGap(s, Notified(n), u)
  {
    GapExactly(s.view[u], n, u in s.cached);
    if Differs(s, u) {
      GapStays(s.view[u], s.redis[u], n);
    }
    hide OfflineUser, UserAgrees, ConcernedAt;
  }

  lemma NotifiedDiffers(s: Store, n: StateNotify, u: string)
    requires Agree(s)
    ensures var e := Notified(n);
      Differs(Apply(s, e), u) <==> !Closes(s, e, u) && (Differs(s, u) || OpensGap(s, e, u))
  {
    if EarlyReturn(s.view, n) && n.id == u {
      NotifyDiffers(s, n, u);
    }
    hide OfflineUser, UserAgrees, MarkOnline;
  }

  lemma MailSavedDiffers(s: Store, id: string, plat: Plat, kind: Kind, body: string, u: string)
    requires Agree(s)
    ensures var e := MailSaved(id, plat, kind, body);
      Differs(Apply(s, e), u) <==> !Closes(s, e, u) && (Differs(s, u) || OpensGap(s, e, u))
  {
    SkipChangesNothing(s, kind, id, plat, body);
    SavedElsewhere(s.view, id, plat, kind, body);
    hide Saved, UserAgrees, Skips;
  }

  lemma StepDiffers(s: Store, e: Event, u: string)
    requires Agree(s)
    ensures Differs(Apply(s, e), u) <==> !Closes(s, e, u) && (Differs(s, u) || OpensGap(s, e, u))
  {
    match e {
      case Notified(n) =>
        NotifiedDiffers(s, n, u);
        hide *;
      case MailSaved(id, plat, kind, body) =>
        MailSavedDiffers(s, id, plat, kind, body, u);
        hide *;
      case _ =>
        hide DrainMail, UserAgrees, LoginUser;
    }
  }

  /** Event `i` opened a gap, and nothing has written the user back since. */
  predicate GapAt(stored: map<string, User>, es: seq<Event>, i: nat, u: string)
    requires i < |es|
  {
    OpensGap(Run(stored, es[..i]), es[i], u) && forall j :: i < j < |es| ==> !Closes(Run(stored, es[..j]), es[j], u)
  }

  predicate Drifted(stored: map<string, User>, es: seq<Event>, u: string)
  {
    exists i :: 0 <= i < |es| && GapAt(stored, es, i, u)
  }

  lemma GapAtStep(stored: map<string, User>, es: seq<Event>, e: Event, i: nat, u: string)
    requires i < |es|
    ensures GapAt(stored, es + [e], i, u) <==> GapAt(stored, es, i, u) && !Closes(Run(stored, es), e, u)
  {
    hide Run, OpensGap, Closes;
    var all := es + [e];
    assert forall j :: 0 <= j < |es| ==> all[..j] == es[..j] && all[j] == es[j];
    assert all[..|es|] == es && all[|es|] == e;
  }

  lemma GapAtLast(stored: map<string, User>, es: seq<Event>, e: Event, u: string)
    ensures GapAt(stored, es + [e], |es|, u) <==> OpensGap(Run(stored, es), e, u)
    ensures OpensGap(Run(stored, es), e, u) ==> !Closes(Run(stored, es), e, u)
  {
    assert (es + [e])[..|es|] == es;
  }

  lemma DriftedStep(stored: map<string, User>, es: seq<Event>, e: Event, u: string)
    ensures Drifted(stored, es + [e], u) <==>
            !Closes(Run(stored, es), e, u) && (Drifted(stored, es, u) || OpensGap(Run(stored, es), e, u))
  {
    hide GapAt, Run, OpensGap, Closes;
    GapAtLast(stored, es, e, u);
    forall i: nat | i < |es|
      ensures GapAt(stored, es + [e], i, u) <==> GapAt(stored, es, i, u) && !Closes(Run(stored, es), e, u)
    {
      GapAtStep(stored, es, e, i, u);
    }
  }

  /** After any history, memory and redis differ for a user exactly if an early return opened a
      gap and nothing has written the user back since. */
  lemma {:induction false} DriftExactly(stored: map<string, User>, es: seq<Event>, u: string)
    ensures Differs(Run(stored, es), u) <==> Drifted(stored, es, u)
  {
    if es != [] {
      var init, e := es[..|es| - 1], es[|es| - 1];
      assert es == init + [e];
      DriftExactly(stored, init, u);
      RunAgrees(stored, init);
      hide Agree, Drifted, Differs, Closes, OpensGap, Apply;
      StepDiffers(Run(stored, init), e, u);
      DriftedStep(stored, init, e, u);
    }
  }

  /** A restart changes what is seen of a user exactly if memory and redis had drifted. */
  lemma RestartShowsExactly(stored: map<string, User>, es: seq<Event>, u: string)
    requires u in Run(stored, es).view
    ensures u in Run(stored, es + [Restarted]).view
    ensures Run(stored, es + [Restarted]).view[u] != Run(stored, es).view[u] <==> Drifted(stored, es, u)
  {
    assert (es + [Restarted])[..|es|] == es;
    RunAgrees(stored, es);
    DriftExactly(stored, es, u);
    hide Run, Drifted, UserAgrees;
  }

  /** The run of a history, one event at a time. */
  lemma OneMore(stored: map<string, User>, es: seq<Event>, e: Event)
    ensures Run(stored, es + [e]) == Apply(Run(stored, es), e)
  {
    assert (es + [e])[..|es|] == es;
  }

  lemma TwoEvents(stored: map<string, User>, e: Event, f: Event)
    ensures Run(stored, [e, f]) == Apply(Apply(Opened(stored), e), f)
  {
    hide Apply;
    OneMore(stored, [], e);
    OneMore(stored, [e], f);
    assert [] + [e] == [e] && [e] + [f] == [e, f];
  }

  lemma FirstLogin(msg: LoginMsg)
    requires msg.login
    ensures var users := map[msg.uid := User(msg.uid, "", [Fresh(msg)])];
      Apply(Opened(map[]), UserState(msg)) == Store(users, users, {msg.uid})
  {
  }

  lemma FirstOnline(id: string, t: Terminal, on: StateNotify)
    requires on.online && on.id == id && Concerns(on, t)
    ensures var users := map[id := User(id, "", [t])];
      var after := map[id := User(id, on.cometId, [t.(online := true)])];
      Apply(Store(users, users, {id}), Notified(on)) == Store(after, after, {id})
  {
    assert MarkOnline([t], on) == [t.(online := true)];
  }

  /** The store after a new user has logged in and come online. */
  lemma CameOnline(id: string, plat: Plat, code: string, comet: string)
    ensures var msg, on := LoginMsg(id, plat, code, "", true), StateNotify(id, plat, code, comet, true);
      var users := map[id := User(id, comet, [Fresh(msg).(online := true)])];
      Run(map[], [UserState(msg), Notified(on)]) == Store(users, users, {id})
  {
    var msg, on := LoginMsg(id, plat, code, "", true), StateNotify(id, plat, code, comet, true);
    TwoEvents(map[], UserState(msg), Notified(on));
    FirstLogin(msg);
    hide Run, Apply;
    FirstOnline(id, Fresh(msg), on);
  }

  /** A user who logs in, comes online and goes offline again differs: in redis he is online. */
  lemma DriftReached(id: string, plat: Plat, code: string, comet: string)
    ensures var es := [UserState(LoginMsg(id, plat, code, "", true)),
                       Notified(StateNotify(id, plat, code, comet, true)),
                       Notified(StateNotify(id, plat, code, comet, false))];
      var s := Run(map[], es);
      && id in s.view && id in s.redis && |s.view[id].sess| == |s.redis[id].sess| == 1
      && !s.view[id].sess[0].online && s.redis[id].sess[0].online
  {
    var msg := LoginMsg(id, plat, code, "", true);
    var on, off := StateNotify(id, plat, code, comet, true), StateNotify(id, plat, code, comet, false);
    var es := [UserState(msg), Notified(on)];
    CameOnline(id, plat, code, comet);
    OneMore(map[], es, Notified(off));
    assert es + [Notified(off)] == [UserState(msg), Notified(on), Notified(off)];
    hide Run;
    assert ConcernedAt(Run(map[], es).view[id].sess, off) == 0;
  }

  /** With a restart before he goes offline, reported by another comet, he has that comet in
      memory and the old one in redis. */
  lemma CometDriftReached(id: string, plat: Plat, code: string, a: string, b: string)
    ensures var es := [UserState(LoginMsg(id, plat, code, "", true)),
                       Notified(StateNotify(id, plat, code, a, true)),
                       Restarted,
                       Notified(StateNotify(id, plat, code, b, false))];
      var s := Run(map[], es);
      id in s.view && id in s.redis && s.view[id].cometId == b && s.redis[id].cometId == a
  {
    var msg := LoginMsg(id, plat, code, "", true);
    var on, off := StateNotify(id, plat, code, a, true), StateNotify(id, plat, code, b, false);
    var es := [UserState(msg), Notified(on)];
    CameOnline(id, plat, code, a);
    OneMore(map[], es, Restarted);
    OneMore(map[], es + [Restarted], Notified(off));
    assert es + [Restarted] + [Notified(off)] == [UserState(msg), Notified(on), Restarted, Notified(off)];
    hide Run;
    assert ConcernedAt(Run(map[], es).view[id].sess, off) == 0;
  }

  // ---------- The same histories as seen by authentication ----------

  /** The event as `AuthTrace` sees it; a lookup changes nothing there. */
  function Seen(s: Store, e: Event): seq<AuthTrace.Event>
  {
    match e
    case UserState(msg) => [AuthTrace.UserState(msg)]
    case Notified(n) => [AuthTrace.Notified(n, n.id in s.cached)]
    case MailSaved(id, plat, kind, body) => [AuthTrace.MailSaved(id, plat, kind, body)]
    case MailTaken(id, plat, kind) => [AuthTrace.MailTaken(id, plat, kind)]
    case LookedUp(_) => []
    case CometExit(comet) => [AuthTrace.CometExit(comet, s.cached)]
    case Restarted => [AuthTrace.Restarted(s.redis)]
  }

  function SeenAll(stored: map<string, User>, es: seq<Event>): seq<AuthTrace.Event>
  {
    if es == [] then [] else SeenAll(stored, es[..|es| - 1]) + Seen(Run(stored, es[..|es| - 1]), es[|es| - 1])
  }

  lemma SeenStep(stored: map<string, User>, seen: seq<AuthTrace.Event>, a: AuthTrace.Event)
    ensures AuthTrace.Run(stored, seen + [a]) == AuthTrace.Apply(AuthTrace.Run(stored, seen), a)
  {
    assert (seen + [a])[..|seen|] == seen;
  }

  lemma RedisHasAuth(s: Store)
    requires Agree(s)
    ensures AuthTrace.SameAuth(s.view, s.redis)
  {
    forall u | u in s.view
      ensures AuthTrace.SameAuthList(s.view[u].sess, s.redis[u].sess)
    {
      var ts, us := s.view[u].sess, s.redis[u].sess;
      assert UserAgrees(s.view[u], s.redis[u]);
      assert forall i :: 0 <= i < |ts| ==> TerminalAgrees(ts[i], us[i]);
    }
  }

  lemma SeenApplies(s: Store, e: Event)
    requires Agree(s)
    ensures Apply(s, e).view ==
            if Seen(s, e) == [] then s.view else AuthTrace.Apply(s.view, Seen(s, e)[0])
    ensures |Seen(s, e)| <= 1
  {
    RedisHasAuth(s);
    hide LoginUser, NotifyView, Saved, Drained, CometGone, RedisLeft, AuthTrace.SameAuth, Agree;
  }

  /** What is known of histories there holds of these. */
  lemma {:induction false} SameView(stored: map<string, User>, es: seq<Event>)
    ensures AuthTrace.Run(stored, SeenAll(stored, es)) == Run(stored, es).view
  {
    if es != [] {
      var init, e := es[..|es| - 1], es[|es| - 1];
      assert Run(stored, es) == Apply(Run(stored, init), e);
      assert SeenAll(stored, es) == SeenAll(stored, init) + Seen(Run(stored, init), e);
      hide Run, Apply, Seen, SeenAll, AuthTrace.Run, AuthTrace.Apply;
      SameView(stored, init);
      RunAgrees(stored, init);
      SeenApplies(Run(stored, init), e);
      var more, seen := Seen(Run(stored, init), e), SeenAll(stored, init);
      if more == [] {
        assert seen + more == seen;
      } else {
        assert more == [more[0]];
        SeenStep(stored, seen, more[0]);
      }
    }
  }

  /** A restart of the router never changes whom it authenticates. */
  lemma RestartKeepsAuth(stored: map<string, User>, es: seq<Event>, id: string, plat: Plat, code: string)
    ensures AuthOk(Run(stored, es + [Restarted]).view, id, plat, code)
       <==> AuthOk(Run(stored, es).view, id, plat, code)
  {
    OneMore(stored, es, Restarted);
    RunAgrees(stored, es);
    RedisHasAuth(Run(stored, es));
    AuthTrace.SameAnswers(Run(stored, es).view, Run(stored, es).redis, id, plat, code);
    hide Run, AuthOk, AuthTrace.SameAuth, Agree;
  }
}
