/** The router's objects against the histories: handling an event, which may be a restart, is one step
    of `Drift`, so what is proved of all histories holds of the router. */
module Handlers {
  import opened Terminals
  import opened Rds
  import opened Logins
  import opened StoragerModel
  import opened RouterModel
  import FanOut
  import Drift

  /** What a router's store holds: the users as seen, as stored, and who is cached. */
  ghost function StateOf(r: Router): Drift.Store
    reads r.store
  {
    Drift.Store(r.store.view, r.store.redis, r.store.memStore.Keys)
  }

  lemma ShapeKept(v: map<string, User>, id: string, plat: Plat, kind: Kind, body: string)
    requires ViewWellFormed(v)
    ensures ViewWellFormed(Saved(v, id, plat, kind, body)) && ViewWellFormed(Drained(v, id, plat, kind))
  {
    FanOut.SavedShape(v, id, plat, kind, body);
    FanOut.DrainedShape(v, id, plat, kind);
    hide Saved, Drained, ViewWellFormed, FanOut.SameShape;
    SameShapeWellFormed(v, Saved(v, id, plat, kind, body));
    SameShapeWellFormed(v, Drained(v, id, plat, kind));
  }

  method Save(store: Storager, id: string, plat: Plat, kind: Kind, body: string)
    requires store.Valid()
    modifies store, store.Items(id)`off
    ensures store.Valid() && store.view == Saved(old(store.view), id, plat, kind, body)
    ensures store.WroteBack(id, !(kind == CallbackKind && Duplicate(old(store.view), id, plat, body)))
  {
    hide *;
    match kind {
      case PushKind => store.SavePushMsg(id, plat, body);
      case CallbackKind => store.SaveCallbackMsg(id, plat, body);
      case ImKind => store.SaveImMsg(id, plat, body);
    }
  }

  method Take(store: Storager, id: string, plat: Plat, kind: Kind)
    requires store.Valid()
    modifies store, store.Items(id)`off
    ensures store.Valid() && store.view == Drained(old(store.view), id, plat, kind) && store.WroteBack(id, true)
  {
    hide *;
    match kind {
      case PushKind => var _ := store.GetPushMsg(id, plat);
      case CallbackKind => var _ := store.GetCallbackMsg(id, plat);
      case ImKind => var _ := store.GetImMsg(id, plat);
    }
  }

  lemma SaveStep(s: Drift.Store, t: Drift.Store, id: string, plat: Plat, kind: Kind, body: string)
    requires t.view == Saved(s.view, id, plat, kind, body) && t.cached == CachedWith(s.cached, t.view, id)
    requires t.redis == Stored(s.redis, t.view, id, !(kind == CallbackKind && Duplicate(s.view, id, plat, body)))
    ensures t == Drift.Apply(s, Drift.MailSaved(id, plat, kind, body))
  {
    hide Saved, Duplicate;
  }

  lemma TakeStep(s: Drift.Store, t: Drift.Store, id: string, plat: Plat, kind: Kind)
    requires t.view == Drained(s.view, id, plat, kind) && t.cached == CachedWith(s.cached, t.view, id)
    requires t.redis == Stored(s.redis, t.view, id, true)
    ensures t == Drift.Apply(s, Drift.MailTaken(id, plat, kind))
  {
    hide Drained;
  }

  lemma ExitStep(s: Drift.Store, t: Drift.Store, comet: string)
    requires CometLeft(s.view, s.redis, t.view, t.redis, s.cached, comet) && t.cached == s.cached
    ensures t == Drift.Apply(s, Drift.CometExit(comet))
  {
    hide LeftComet;
  }

  method HandleSave(r: Router, id: string, plat: Plat, kind: Kind, body: string)
    requires r.Valid()
    modifies r.store, r.store.Items(id)`off
    ensures r.Valid() && StateOf(r) == Drift.Apply(old(StateOf(r)), Drift.MailSaved(id, plat, kind, body))
  {
    ghost var s := StateOf(r);
    ShapeKept(r.store.view, id, plat, kind, body);
    hide UserAgrees, UserOk, Saved, WellFormed, Duplicate, Stored, CachedWith, Drift.Apply, Storager.ValidBut;
    Save(r.store, id, plat, kind, body);
    SaveStep(s, StateOf(r), id, plat, kind, body);
  }

  method HandleTake(r: Router, id: string, plat: Plat, kind: Kind)
    requires r.Valid()
    modifies r.store, r.store.Items(id)`off
    ensures r.Valid() && StateOf(r) == Drift.Apply(old(StateOf(r)), Drift.MailTaken(id, plat, kind))
  {
    ghost var s := StateOf(r);
    ShapeKept(r.store.view, id, plat, kind, "");
    hide UserAgrees, UserOk, Drained, WellFormed, Stored, CachedWith, Drift.Apply, Storager.ValidBut;
    Take(r.store, id, plat, kind);
    TakeStep(s, StateOf(r), id, plat, kind);
  }

  method HandleExit(r: Router, comet: string)
    requires r.Valid()
    modifies r.store, r.store.AllItems(), r.pool
    ensures r.Valid() && StateOf(r) == Drift.Apply(old(StateOf(r)), Drift.CometExit(comet))
  {
    ghost var s := StateOf(r);
    hide UserAgrees, UserOk, WellFormed, CometLeft, Drift.Apply, Storager.ValidBut;
    r.CometExit(comet);
    ExitStep(s, StateOf(r), comet);
  }

  lemma StoredWellFormed(s: Storager)
    requires s.Valid() && ViewWellFormed(s.view)
    ensures ViewWellFormed(s.redis) && forall u :: u in s.redis ==> UserOk(u, s.redis[u])
  {
    forall u | u in s.redis
      ensures WellFormed(s.redis[u].sess) && UserOk(u, s.redis[u])
    {
      assert s.RedisOk(u);
      var ts, us := s.view[u].sess, s.redis[u].sess;
      assert forall i :: 0 <= i < |ts| ==> TerminalAgrees(ts[i], us[i]);
      SamePlatsWellFormed(ts, us);
    }
  }

  /** A new router on what redis holds. */
  method Restart(r: Router) returns (next: Router)
    requires r.Valid()
    ensures fresh(next) && next.Valid() && StateOf(next) == Drift.Apply(StateOf(r), Drift.Restarted)
  {
    StoredWellFormed(r.store);
    hide UserAgrees, UserOk, WellFormed, Storager.ValidBut;
    var store := new Storager(r.store.redis);
    next := new Router(store);
  }

  /** Whatever happens to a router, its store goes on as the histories say; only a restart brings
      another router. */
  method Handle(r: Router, e: Drift.Event) returns (next: Router)
    requires r.Valid()
    modifies r.store, r.store.AllItems(), r.pool
    ensures next.Valid() && StateOf(next) == Drift.Apply(old(StateOf(r)), e)
    ensures if e.Restarted? then fresh(next) else next == r
  {
    next := r;
    hide UserAgrees, UserOk, WellFormed, LoginUser, NotifyView, EarlyReturn, Storager.ValidBut;
    match e {
      case UserState(msg) =>
        var _ := r.Login(msg);
      case Notified(n) =>
        r.Notify(n);
      case MailSaved(id, plat, kind, body) =>
        HandleSave(r, id, plat, kind, body);
      case MailTaken(id, plat, kind) =>
        HandleTake(r, id, plat, kind);
      case LookedUp(id) =>
        var _ := r.store.FindSessions(id);
      case CometExit(comet) =>
        HandleExit(r, comet);
      case Restarted =>
        next := Restart(r);
    }
  }
}
