/** What the counts of the pool mean: a comet's load over whole histories of notifications, and
    when a connection that comes and goes leaves it as it was. */
module Loads {
  import opened Terminals
  import opened Rds
  import opened Logins
  import opened Drift
  import Balancer

  function Change(s: Store, e: Event, comet: string): int
  {
    if e.Notified? && e.n.cometId == comet then LoadChange(s.view, e.n) else 0
  }

  /** A comet's count of users after a history through which it was registered. A router that
      starts anew counts from 0. */
  function Load(stored: map<string, User>, es: seq<Event>, comet: string): int
  {
    if es == [] || es[|es| - 1].Restarted? then 0
    else Load(stored, es[..|es| - 1], comet) + Change(Run(stored, es[..|es| - 1]), es[|es| - 1], comet)
  }

  lemma LoadOneMore(stored: map<string, User>, es: seq<Event>, e: Event, comet: string)
    ensures Load(stored, es + [e], comet)
         == if e.Restarted? then 0 else Load(stored, es, comet) + Change(Run(stored, es), e, comet)
    ensures Run(stored, es + [e]) == Apply(Run(stored, es), e)
  {
    assert (es + [e])[..|es|] == es;
  }

  /** The pool after a history through which it had these comets. */
  function Pooled(stored: map<string, User>, es: seq<Event>, comets: set<string>): map<string, int>
  {
    if es == [] then map c | c in comets :: 0
    else
      var init, e := es[..|es| - 1], es[|es| - 1];
      match e
      case Restarted => map c | c in comets :: 0
      case Notified(n) =>
        Balancer.Counted(Pooled(stored, init, comets), n.cometId, LoadChange(Run(stored, init).view, n))
      case _ => Pooled(stored, init, comets)
  }

  /** The counts in the pool are the loads. */
  lemma {:induction false} PoolCounts(stored: map<string, User>, es: seq<Event>, comets: set<string>, comet: string)
    requires comet in comets
    ensures comet in Pooled(stored, es, comets) && Pooled(stored, es, comets)[comet] == Load(stored, es, comet)
  {
    hide LoadChange, Run;
    if es != [] {
      PoolCounts(stored, es[..|es| - 1], comets, comet);
    }
  }

  /** A terminal of a known user connects at a comet and leaves it again. */
  predicate Visit(s: Store, on: StateNotify, off: StateNotify)
  {
    on.online && !off.online && on.id == off.id && on.cometId == off.cometId && on.id in s.view
  }

  lemma SameConcern(ts: seq<Terminal>, us: seq<Terminal>, n: StateNotify)
    requires |ts| == |us| && forall i :: 0 <= i < |ts| ==> us[i].plat == ts[i].plat && us[i].authCode == ts[i].authCode
    ensures Visited(us, n) == Visited(ts, n)
  {
    var i, j := ConcernedAt(ts, n), ConcernedAt(us, n);
    assert i < |ts| ==> Concerns(n, us[i]);
    assert j < |us| ==> Concerns(n, ts[j]);
  }

  lemma NotifySameConcern(s: Store, n: StateNotify, off: StateNotify)
    requires n.id in s.view
    ensures n.id in Apply(s, Notified(n)).view
    ensures Visited(Apply(s, Notified(n)).view[n.id].sess, off) == Visited(s.view[n.id].sess, off)
  {
    SameConcern(s.view[n.id].sess, Apply(s, Notified(n)).view[n.id].sess, off);
  }

  lemma VisitCounts(stored: map<string, User>, es: seq<Event>, on: StateNotify, off: StateNotify)
    requires Visit(Run(stored, es), on, off)
    ensures var looked := Visited(Run(stored, es).view[on.id].sess, off);
      var after := es + [Notified(on), Notified(off)];
      Load(stored, after, on.cometId) == Load(stored, es, on.cometId) + 1 - looked
      && on.id in Run(stored, after).view && Visited(Run(stored, after).view[on.id].sess, off) == looked
  {
    hide ConcernedAt;
    LoadOneMore(stored, es, Notified(on), on.cometId);
    NotifySameConcern(Run(stored, es), on, off);
    LoadOneMore(stored, es + [Notified(on)], Notified(off), on.cometId);
    NotifySameConcern(Run(stored, es + [Notified(on)]), off, off);
    assert es + [Notified(on), Notified(off)] == es + [Notified(on)] + [Notified(off)];
  }

  /** A visit leaves the load as it was exactly if the user has one terminal, or the terminal
      comes first in the list. */
  lemma VisitRestoresExactly(stored: map<string, User>, es: seq<Event>, on: StateNotify, off: StateNotify)
    requires Visit(Run(stored, es), on, off)
    ensures var ts := Run(stored, es).view[on.id].sess;
      Load(stored, es + [Notified(on), Notified(off)], on.cometId) == Load(stored, es, on.cometId)
      <==> |ts| == 1 || (|ts| > 1 && Concerns(off, ts[0]))
  {
    VisitCounts(stored, es, on, off);
  }

  /** A history followed by a number of visits. */
  function WithVisits(es: seq<Event>, on: StateNotify, off: StateNotify, k: nat): seq<Event>
  {
    if k == 0 then es else WithVisits(es, on, off, k - 1) + [Notified(on), Notified(off)]
  }

  function Times(k: nat, d: int): int
  {
    k * d
  }

  lemma OnceMore(k: nat, d: int)
    ensures Times(0, d) == 0 && (k > 0 ==> Times(k - 1, d) + d == Times(k, d))
  {
  }

  lemma {:induction false} VisitsDriftBy(stored: map<string, User>, es: seq<Event>, on: StateNotify, off: StateNotify,
                                         k: nat, looked: nat)
    requires Visit(Run(stored, es), on, off) && Visited(Run(stored, es).view[on.id].sess, off) == looked
    ensures var after := WithVisits(es, on, off, k);
      Load(stored, after, on.cometId) == Load(stored, es, on.cometId) + Times(k, 1 - looked)
      && on.id in Run(stored, after).view && Visited(Run(stored, after).view[on.id].sess, off) == looked
  {
    OnceMore(k, 1 - looked);
    hide Visited, Load, Run, Times;
    if k > 0 {
      VisitsDriftBy(stored, es, on, off, k - 1, looked);
      VisitCounts(stored, WithVisits(es, on, off, k - 1), on, off);
    }
  }

  /** Every further visit moves the load by as much again. */
  lemma VisitsDrift(stored: map<string, User>, es: seq<Event>, on: StateNotify, off: StateNotify, k: nat)
    requires Visit(Run(stored, es), on, off)
    ensures var looked := Visited(Run(stored, es).view[on.id].sess, off); var after := WithVisits(es, on, off, k);
      Load(stored, after, on.cometId) == Load(stored, es, on.cometId) + k * (1 - looked)
      && on.id in Run(stored, after).view && Visited(Run(stored, after).view[on.id].sess, off) == looked
  {
    hide Visited, Load, Run, WithVisits;
    VisitsDriftBy(stored, es, on, off, k, Visited(Run(stored, es).view[on.id].sess, off));
  }

  /** A user with a browser and then a phone: every visit of the phone takes one from the load,
      which goes below zero. */
  lemma NegativeLoad(uid: string, comet: string, code: string, token: string, k: nat)
    ensures var browser := UserState(LoginMsg(uid, PLAT_WEB, code, "", true));
      var phone := UserState(LoginMsg(uid, PLAT_ANDROID, token, "", true));
      var on := StateNotify(uid, PLAT_ANDROID, token, comet, true);
      Load(map[], WithVisits([browser, phone], on, on.(online := false), k), comet) == 0 - k
  {
    var web, android := LoginMsg(uid, PLAT_WEB, code, "", true), LoginMsg(uid, PLAT_ANDROID, token, "", true);
    var on := StateNotify(uid, PLAT_ANDROID, token, comet, true);
    LoadOneMore(map[], [], UserState(web), comet);
    LoadOneMore(map[], [UserState(web)], UserState(android), comet);
    assert [] + [UserState(web)] == [UserState(web)];
    assert [UserState(web)] + [UserState(android)] == [UserState(web), UserState(android)];
    BrowserThenPhone(web, android, on.(online := false));
    VisitsDrift(map[], [UserState(web), UserState(android)], on, on.(online := false), k);
  }

  lemma BrowserThenPhone(web: LoginMsg, android: LoginMsg, off: StateNotify)
    requires web.login && android.login && web.uid == android.uid == off.id
    requires web.termtype == PLAT_WEB && android.termtype == PLAT_ANDROID == off.termtype && android.code == off.token
    ensures var s := Apply(Apply(Opened(map[]), UserState(web)), UserState(android));
      off.id in s.view && Visited(s.view[off.id].sess, off) == 2
  {
    LoginListCases([Fresh(web)], android);
  }
}
