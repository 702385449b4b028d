/** What the router's handlers do to a user's terminal list (router/procNsq.go,
    router/procRpc.go), on values. */
module Logins {
  import opened Terminals
  import opened Rds

  const KICK_REASON_REPEAT: nat := 1
  const KICK_REASON_MUTEX: nat := 2
  /** The type under which a notice is pushed; it names no kind of message. */
  const NOTICE_TYPE: nat := 1

  /** A login event of the topic userOnlineState. */
  datatype LoginMsg = LoginMsg(uid: string, termtype: Plat, code: string, deviceToken: string, login: bool)

  /** What the router asks of a comet while it handles a login. */
  datatype Call =
    | Kick(id: string, plat: Plat, token: string, reason: nat)
    | Notice(id: string, plat: Plat, iosToken: string)

  // ---------- Reachable lists ----------

  /** One terminal per type, and never both phone types. */
  predicate WellFormed(ts: seq<Terminal>)
  {
    forall i, j :: 0 <= i < j < |ts| ==>
      ts[i].plat != ts[j].plat && !Exclusive(ts[i].plat, ts[j].plat)
  }

  predicate Clashes(t: Terminal, p: Plat)
  {
    t.plat == p || Exclusive(t.plat, p)
  }

  // ---------- Login ----------

  function Fresh(msg: LoginMsg): Terminal
  {
    Terminal(msg.uid, msg.termtype, false, msg.login, msg.code, msg.deviceToken, NO_MAIL)
  }

  function Renewed(t: Terminal, msg: LoginMsg): Terminal
  {
    t.(authCode := msg.code, iosToken := msg.deviceToken, login := msg.login)
  }

  /** The list without the terminals that exclude type `p`. */
  function Without(ts: seq<Terminal>, p: Plat): (r: seq<Terminal>)
  {
    if ts == [] then []
    else (if Exclusive(ts[0].plat, p) then [] else [ts[0]]) + Without(ts[1..], p)
  }

  /** Renew the terminal of this type, or append one. */
  function Upsert(ts: seq<Terminal>, msg: LoginMsg): seq<Terminal>
  {
    var i := First(ts, msg.termtype);
    if i < |ts| then ts[i := Renewed(ts[i], msg)] else ts + [Fresh(msg)]
  }

  function LoginList(ts: seq<Terminal>, msg: LoginMsg): seq<Terminal>
  {
    Upsert(Without(ts, msg.termtype), msg)
  }

  /** Position of the first terminal that the login displaces, or the length of the list. */
  function ClashAt(ts: seq<Terminal>, p: Plat): (i: nat)
    ensures i <= |ts|
    ensures i < |ts| ==> Clashes(ts[i], p)
    ensures forall j :: 0 <= j < i ==> !Clashes(ts[j], p)
  {
    if ts == [] || Clashes(ts[0], p) then 0 else 1 + ClashAt(ts[1..], p)
  }

  /** A displaced terminal is kicked, under its old code, when it is connected and logged in
      and its comet is known; a phone of type iOS also gets a notice. */
  function KickCalls(t: Terminal, p: Plat, up: bool): seq<Call>
  {
    if up && t.online && t.login then
      [Kick(t.id, t.plat, t.authCode, if t.plat == p then KICK_REASON_REPEAT else KICK_REASON_MUTEX)]
      + (if t.plat == PLAT_IOS then [Notice(t.id, t.plat, t.iosToken)] else [])
    else []
  }

  function LoginCalls(ts: seq<Terminal>, p: Plat, up: bool): seq<Call>
  {
    var i := ClashAt(ts, p);
    if i < |ts| then KickCalls(ts[i], p, up) else []
  }

  /** What a login event asks of the comets, of which these are known. */
  function CallsMade(v: map<string, User>, msg: LoginMsg, comets: set<string>): seq<Call>
  {
    if msg.login && msg.uid in v then LoginCalls(v[msg.uid].sess, msg.termtype, v[msg.uid].cometId in comets) else []
  }

  function LoginUser(v: map<string, User>, msg: LoginMsg): User
  {
    if msg.uid in v then v[msg.uid].(sess := LoginList(v[msg.uid].sess, msg))
    else User(msg.uid, "", [Fresh(msg)])
  }

  /** Logout events change nothing. */
  function LoginView(v: map<string, User>, msg: LoginMsg): map<string, User>
  {
    if msg.login then v[msg.uid := LoginUser(v, msg)] else v
  }

  // ---------- On a reachable list at most one terminal is displaced ----------

  lemma OneClash(ts: seq<Terminal>, p: Plat, i: nat, j: nat)
    requires WellFormed(ts) && i < |ts| && j < |ts|
    requires Clashes(ts[i], p) && Clashes(ts[j], p)
    ensures i == j
  {
  }

  lemma {:induction false} WithoutNothing(ts: seq<Terminal>, p: Plat)
    requires forall i :: 0 <= i < |ts| ==> !Exclusive(ts[i].plat, p)
    ensures Without(ts, p) == ts
  {
    if ts != [] {
      WithoutNothing(ts[1..], p);
    }
  }

  lemma {:induction false} WithoutOne(ts: seq<Terminal>, p: Plat, d: nat)
    requires d < |ts| && Exclusive(ts[d].plat, p)
    requires forall i :: 0 <= i < |ts| && i != d ==> !Exclusive(ts[i].plat, p)
    ensures Without(ts, p) == ts[..d] + ts[d + 1..]
  {
    if d == 0 {
      WithoutNothing(ts[1..], p);
    } else {
      WithoutOne(ts[1..], p, d - 1);
      assert ts[..d] == [ts[0]] + ts[1..][..d - 1];
      assert ts[1..][d - 1 + 1..] == ts[d + 1..];
    }
  }

  lemma LoginListNoCounterpart(ts: seq<Terminal>, msg: LoginMsg)
    requires WellFormed(ts)
    ensures var d := ClashAt(ts, msg.termtype);
      d == |ts| || ts[d].plat == msg.termtype ==>
        LoginList(ts, msg) == if d == |ts| then ts + [Fresh(msg)] else ts[d := Renewed(ts[d], msg)]
  {
    var d := ClashAt(ts, msg.termtype);
    OnlyClash(ts, msg.termtype);
    hide WellFormed, Exclusive;
    if d == |ts| || ts[d].plat == msg.termtype {
      WithoutNothing(ts, msg.termtype);
      FirstIs(ts, msg.termtype, d);
    }
  }

  lemma LoginListCounterpart(ts: seq<Terminal>, msg: LoginMsg)
    requires WellFormed(ts)
    ensures var d := ClashAt(ts, msg.termtype);
      d < |ts| && ts[d].plat != msg.termtype ==> LoginList(ts, msg) == ts[..d] + ts[d + 1..] + [Fresh(msg)]
  {
    var d := ClashAt(ts, msg.termtype);
    OnlyClash(ts, msg.termtype);
    if d < |ts| && ts[d].plat != msg.termtype {
      WithoutOne(ts, msg.termtype, d);
      GapHasNone(ts, d, msg.termtype);
    }
  }

  lemma GapHasNone(ts: seq<Terminal>, d: nat, p: Plat)
    requires d < |ts| && forall j :: 0 <= j < |ts| && j != d ==> ts[j].plat != p
    ensures First(ts[..d] + ts[d + 1..], p) == |ts| - 1
  {
    var rest := ts[..d] + ts[d + 1..];
    assert forall j :: 0 <= j < |rest| ==> rest[j] == ts[if j < d then j else j + 1];
    FirstIs(rest, p, |rest|);
  }

  /** The specification of a login, read off the position of the only displaced terminal. */
  lemma {:induction false} LoginListCases(ts: seq<Terminal>, msg: LoginMsg)
    requires WellFormed(ts)
    ensures var d := ClashAt(ts, msg.termtype);
      LoginList(ts, msg) ==
        if d == |ts| then ts + [Fresh(msg)]
        else if ts[d].plat == msg.termtype then ts[d := Renewed(ts[d], msg)]
        else ts[..d] + ts[d + 1..] + [Fresh(msg)]
  {
    LoginListNoCounterpart(ts, msg);
    LoginListCounterpart(ts, msg);
  }

  lemma OnlyClash(ts: seq<Terminal>, p: Plat)
    requires WellFormed(ts)
    ensures forall j :: 0 <= j < |ts| && j != ClashAt(ts, p) ==> !Clashes(ts[j], p)
  {
    forall j | 0 <= j < |ts| && j != ClashAt(ts, p) ensures !Clashes(ts[j], p) {
      if Clashes(ts[j], p) {
        OneClash(ts, p, j, ClashAt(ts, p));
      }
    }
  }

  lemma AppendWellFormed(ts: seq<Terminal>, t: Terminal)
    requires WellFormed(ts)
    requires forall i :: 0 <= i < |ts| ==> ts[i].plat != t.plat && !Exclusive(ts[i].plat, t.plat)
    ensures WellFormed(ts + [t])
  {
  }

  lemma RemoveWellFormed(ts: seq<Terminal>, d: nat)
    requires WellFormed(ts) && d < |ts|
    ensures WellFormed(ts[..d] + ts[d + 1..])
  {
  }

  /** The place of the only terminal that excludes the new one is taken by it. */
  lemma ReplacedWellFormed(ts: seq<Terminal>, d: nat, t: Terminal)
    requires WellFormed(ts) && d < |ts|
    requires forall i :: 0 <= i < |ts| && i != d ==> !Clashes(ts[i], t.plat)
    ensures WellFormed(ts[..d] + ts[d + 1..] + [t])
  {
    var rest := ts[..d] + ts[d + 1..];
    RemoveWellFormed(ts, d);
    hide WellFormed, Exclusive;
    assert forall i :: 0 <= i < |rest| ==> rest[i] == ts[if i < d then i else i + 1];
    AppendWellFormed(rest, t);
  }

  lemma RenewWellFormed(ts: seq<Terminal>, d: nat, t: Terminal)
    requires WellFormed(ts) && d < |ts| && t.plat == ts[d].plat
    ensures WellFormed(ts[d := t])
  {
  }

  lemma LoginListWellFormed(ts: seq<Terminal>, msg: LoginMsg)
    requires WellFormed(ts)
    ensures WellFormed(LoginList(ts, msg))
  {
    var p := msg.termtype;
    var d := ClashAt(ts, p);
    LoginListCases(ts, msg);
    OnlyClash(ts, p);
    if d == |ts| {
      AppendWellFormed(ts, Fresh(msg));
    } else if ts[d].plat == p {
      RenewWellFormed(ts, d, Renewed(ts[d], msg));
    } else {
      ReplacedWellFormed(ts, d, Fresh(msg));
    }
    hide WellFormed, LoginList, Exclusive, ClashAt;
  }

  /** At most one kick is sent, and it comes first. */
  lemma AtMostOneKick(ts: seq<Terminal>, p: Plat, up: bool)
    ensures forall i :: 0 <= i < |LoginCalls(ts, p, up)| ==> (LoginCalls(ts, p, up)[i].Kick? <==> i == 0)
  {
  }

  /** Every connected terminal that is displaced is kicked, by its old code. */
  lemma DisplacedIsKicked(ts: seq<Terminal>, p: Plat, t: Terminal)
    requires WellFormed(ts) && t in ts && Clashes(t, p) && t.online && t.login
    ensures LoginCalls(ts, p, true) != []
    ensures var c := LoginCalls(ts, p, true)[0];
      c.Kick? && c.id == t.id && c.plat == t.plat && c.token == t.authCode
  {
    var k :| 0 <= k < |ts| && ts[k] == t;
    OneClash(ts, p, k, ClashAt(ts, p));
  }

  /** Nobody else is called. */
  lemma OnlyDisplacedIsCalled(ts: seq<Terminal>, p: Plat, up: bool, c: Call) returns (t: Terminal)
    requires c in LoginCalls(ts, p, up)
    ensures up && t in ts && Clashes(t, p) && t.online && t.login && c.id == t.id && c.plat == t.plat
    ensures c.Kick? ==> c.token == t.authCode
  {
    t := ts[ClashAt(ts, p)];
  }

  /** The connected terminals that a login disturbs: that of its own type, and the rival phone,
      as the numbers of the two phones, and of no other types, add up to 3. */
  predicate Disturbed(t: Terminal, p: Plat)
  {
    t.online && t.login && (t.plat == p || t.plat + p == 3)
  }

  /** A login of a known user, whose comet is registered, kicks the connected terminal that it
      disturbs: for reason 1 a terminal of its own type, for reason 2 the rival phone; a notice
      follows exactly for an iPhone, under the device token of before. Nothing else is called. */
  lemma CallsExactly(v: map<string, User>, msg: LoginMsg, comets: set<string>)
    requires msg.login && msg.uid in v && WellFormed(v[msg.uid].sess)
    ensures var u, calls := v[msg.uid], CallsMade(v, msg, comets);
      && (calls != [] <==> u.cometId in comets && exists t :: t in u.sess && Disturbed(t, msg.termtype))
      && forall t :: t in u.sess && Disturbed(t, msg.termtype) && u.cometId in comets ==>
        && calls[0] == Kick(t.id, t.plat, t.authCode, if t.plat == msg.termtype then 1 else 2)
        && calls[1..] == if t.plat == 2 then [Notice(t.id, 2, t.iosToken)] else []
  {
    var u, p := v[msg.uid], msg.termtype;
    var d := ClashAt(u.sess, p);
    forall t | t in u.sess && Clashes(t, p)
      ensures d < |u.sess| && u.sess[d] == t
    {
      var k :| 0 <= k < |u.sess| && u.sess[k] == t;
      OneClash(u.sess, p, k, d);
    }
    forall t: Terminal
      ensures Clashes(t, p) <==> t.plat == p || t.plat + p == 3
    {
    }
    hide WellFormed, Clashes, ClashAt;
    assert d < |u.sess| ==> u.sess[d] in u.sess;
  }

  /** The same read from the reason: 1 for a terminal of the login's own type, 2 for the rival. */
  lemma ReasonsExactly(v: map<string, User>, msg: LoginMsg, comets: set<string>, c: Call)
    requires msg.login && msg.uid in v && WellFormed(v[msg.uid].sess)
    requires c in CallsMade(v, msg, comets) && c.Kick?
    ensures c.reason == 1 <==> exists t :: t in v[msg.uid].sess && t.plat == msg.termtype
    ensures c.reason == 2 <==> exists t :: t in v[msg.uid].sess && t.plat + msg.termtype == 3
  {
    var ts, p := v[msg.uid].sess, msg.termtype;
    var d := ClashAt(ts, p);
    assert ts[d] in ts;
    forall t | t in ts && (t.plat == p || t.plat + p == 3)
      ensures t == ts[d]
    {
      var k :| 0 <= k < |ts| && ts[k] == t;
      OneClash(ts, p, k, d);
    }
  }

  /** The type of a notice is none that a comet handles. */
  lemma NoticeHasNoKind()
    ensures KindOfType(NOTICE_TYPE).None?
  {
  }

  // ---------- Mail over a login ----------

  /** The mail of a list's first terminal of a type. */
  function MailIn(ts: seq<Terminal>, plat: Plat): Mail
  {
    if First(ts, plat) < |ts| then ts[First(ts, plat)].off else NO_MAIL
  }

  lemma MailOfNone(ts: seq<Terminal>, plat: Plat)
    requires forall i :: 0 <= i < |ts| ==> ts[i].plat != plat
    ensures MailIn(ts, plat) == NO_MAIL
  {
  }

  lemma MailAt(ts: seq<Terminal>, k: nat, plat: Plat)
    requires WellFormed(ts) && k < |ts| && ts[k].plat == plat
    ensures MailIn(ts, plat) == ts[k].off
  {
    FirstIs(ts, plat, k);
  }

  lemma MailRenewed(ts: seq<Terminal>, d: nat, msg: LoginMsg, plat: Plat)
    requires WellFormed(ts) && d < |ts|
    ensures MailIn(ts[d := Renewed(ts[d], msg)], plat) == MailIn(ts, plat)
  {
    var us, k := ts[d := Renewed(ts[d], msg)], First(ts, plat);
    RenewWellFormed(ts, d, us[d]);
    hide WellFormed, MailIn;
    if k < |ts| {
      MailAt(ts, k, plat);
      MailAt(us, k, plat);
    } else {
      MailOfNone(ts, plat);
      MailOfNone(us, plat);
    }
  }

  lemma GoneFromRest(ts: seq<Terminal>, d: nat, plat: Plat)
    requires WellFormed(ts) && d < |ts| && (ts[d].plat == plat || First(ts, plat) == |ts|)
    ensures MailIn(ts[..d] + ts[d + 1..], plat) == NO_MAIL
  {
    var rest := ts[..d] + ts[d + 1..];
    forall i | 0 <= i < |rest|
      ensures rest[i].plat != plat
    {
      var k := if i < d then i else i + 1;
      assert rest[i] == ts[k] && (k < d || d < k);
    }
    hide *;
    MailOfNone(rest, plat);
  }

  lemma MailRemoved(ts: seq<Terminal>, d: nat, plat: Plat)
    requires WellFormed(ts) && d < |ts|
    ensures MailIn(ts[..d] + ts[d + 1..], plat) == if ts[d].plat == plat then NO_MAIL else MailIn(ts, plat)
  {
    var rest, k := ts[..d] + ts[d + 1..], First(ts, plat);
    if ts[d].plat == plat || k == |ts| {
      GoneFromRest(ts, d, plat);
      hide WellFormed;
    } else {
      hide WellFormed, MailIn;
      RemoveWellFormed(ts, d);
      MailAt(ts, k, plat);
      assert rest[if k < d then k else k - 1] == ts[k];
      MailAt(rest, if k < d then k else k - 1, plat);
    }
  }

  lemma {:induction false} FirstAppended(ts: seq<Terminal>, t: Terminal, plat: Plat)
    ensures First(ts + [t], plat) == if First(ts, plat) < |ts| || t.plat == plat then First(ts, plat) else |ts| + 1
  {
    if ts != [] {
      FirstAppended(ts[1..], t, plat);
      assert (ts + [t])[1..] == ts[1..] + [t];
    }
  }

  lemma MailAppended(ts: seq<Terminal>, t: Terminal, plat: Plat)
    requires t.off == NO_MAIL
    ensures MailIn(ts + [t], plat) == MailIn(ts, plat)
  {
    FirstAppended(ts, t, plat);
  }

  lemma RivalHasMail(ts: seq<Terminal>, p: Plat, plat: Plat)
    requires WellFormed(ts)
    ensures var d := ClashAt(ts, p);
      if d < |ts| && ts[d].plat != p then ts[d].plat == plat <==> plat + p == 3
      else plat + p == 3 ==> MailIn(ts, plat) == NO_MAIL
  {
    var d := ClashAt(ts, p);
    OnlyClash(ts, p);
    if plat + p == 3 && (d == |ts| || ts[d].plat == p) {
      MailOfNone(ts, plat);
    }
    hide MailIn, WellFormed, ClashAt;
  }

  lemma MailInLogin(ts: seq<Terminal>, msg: LoginMsg, plat: Plat)
    requires WellFormed(ts)
    ensures MailIn(LoginList(ts, msg), plat) == if plat + msg.termtype == 3 then NO_MAIL else MailIn(ts, plat)
  {
    var d := ClashAt(ts, msg.termtype);
    LoginListCases(ts, msg);
    RivalHasMail(ts, msg.termtype, plat);
    assert Fresh(msg).off == NO_MAIL;
    hide *;
    if d == |ts| {
      MailAppended(ts, Fresh(msg), plat);
    } else if ts[d].plat == msg.termtype {
      MailRenewed(ts, d, msg, plat);
    } else {
      MailRemoved(ts, d, plat);
      MailAppended(ts[..d] + ts[d + 1..], Fresh(msg), plat);
    }
  }

  /** A login leaves every terminal's offline mail as it was, but that of the phone it drives
      out, which is gone. */
  lemma LoginKeepsMail(v: map<string, User>, msg: LoginMsg, id: string, plat: Plat)
    requires ViewWellFormed(v) && msg.login
    ensures MailOf(LoginView(v, msg), id, plat)
         == if id == msg.uid && plat + msg.termtype == 3 then NO_MAIL else MailOf(v, id, plat)
  {
    if id == msg.uid && id in v {
      MailInLogin(v[id].sess, msg, plat);
      hide LoginList, WellFormed;
    }
  }

  // ---------- Authentication ----------

  /** The scan succeeds on any terminal of the type with this code that is logged in. */
  predicate AuthOk(v: map<string, User>, id: string, plat: Plat, code: string)
  {
    id in v && exists i :: 0 <= i < |v[id].sess| && Authorises(v[id].sess[i], plat, code)
  }

  predicate Authorises(t: Terminal, plat: Plat, code: string)
  {
    t.plat == plat && t.authCode == code && t.login
  }

  // ---------- State notifications ----------

  datatype StateNotify = StateNotify(id: string, termtype: Plat, token: string, cometId: string, online: bool)

  predicate Concerns(n: StateNotify, t: Terminal)
  {
    t.plat == n.termtype && t.authCode == n.token
  }

  function ConcernedAt(ts: seq<Terminal>, n: StateNotify): (i: nat)
    ensures i <= |ts|
    ensures i < |ts| ==> Concerns(n, ts[i])
    ensures forall j :: 0 <= j < i ==> !Concerns(n, ts[j])
  {
    if ts == [] || Concerns(n, ts[0]) then 0 else 1 + ConcernedAt(ts[1..], n)
  }

  /** How many terminals an offline notification looks at. */
  function Visited(ts: seq<Terminal>, n: StateNotify): nat
  {
    var i := ConcernedAt(ts, n);
    if i < |ts| then i + 1 else i
  }

  function MarkOnline(ts: seq<Terminal>, n: StateNotify): (r: seq<Terminal>)
    ensures |r| == |ts|
  {
    seq(|ts|, i requires 0 <= i < |ts| => if Concerns(n, ts[i]) then ts[i].(online := true) else ts[i])
  }

  /** Going offline marks the first terminal concerned and returns before saving: the new
      comet id survives only if the list had just been read from redis. */
  function OfflineUser(u: User, n: StateNotify, cached: bool): User
  {
    var i := ConcernedAt(u.sess, n);
    if i < |u.sess| then
      User(u.id, if cached then u.cometId else n.cometId, u.sess[i := u.sess[i].(online := false)])
    else u.(cometId := n.cometId)
  }

  function NotifyView(v: map<string, User>, n: StateNotify, cached: bool): map<string, User>
  {
    if n.id !in v then v
    else if n.online then v[n.id := User(v[n.id].id, n.cometId, MarkOnline(v[n.id].sess, n))]
    else v[n.id := OfflineUser(v[n.id], n, cached)]
  }

  /** Minus one for every terminal that is looked at. */
  function OfflineChange(ts: seq<Terminal>, n: StateNotify): int
  {
    0 - Visited(ts, n)
  }

  /** What a notification adds to its comet's count. */
  function LoadChange(v: map<string, User>, n: StateNotify): int
  {
    if n.id !in v then 0 else if n.online then 1 else OfflineChange(v[n.id].sess, n)
  }

  /** The offline notification that finds its terminal returns before saving; every other
      one writes the user back. */
  predicate EarlyReturn(v: map<string, User>, n: StateNotify)
  {
    !n.online && n.id in v && ConcernedAt(v[n.id].sess, n) < |v[n.id].sess|
  }

  lemma OfflineUserOk(id: string, u: User, stored: User, n: StateNotify, cached: bool)
    requires UserOk(id, u) && UserAgrees(u, stored)
    ensures UserOk(id, OfflineUser(u, n, cached)) && UserAgrees(OfflineUser(u, n, cached), stored)
  {
    forall t | t in OfflineUser(u, n, cached).sess
      ensures TerminalOk(id, t)
    {
      var i := ConcernedAt(u.sess, n);
      if i < |u.sess| {
        assert TerminalOk(id, u.sess[i]);
      }
    }
  }

  lemma MarkOnlineOk(id: string, ts: seq<Terminal>, n: StateNotify)
    requires forall t :: t in ts ==> TerminalOk(id, t)
    ensures forall t :: t in MarkOnline(ts, n) ==> TerminalOk(id, t)
  {
    forall k | 0 <= k < |ts|
      ensures TerminalOk(id, MarkOnline(ts, n)[k])
    {
      assert TerminalOk(id, ts[k]);
    }
  }

  /** Notifications keep every list well formed. */
  lemma NotifyWellFormed(v: map<string, User>, n: StateNotify, cached: bool)
    requires ViewWellFormed(v)
    ensures ViewWellFormed(NotifyView(v, n, cached))
  {
    if n.id in v {
      SamePlatsWellFormed(v[n.id].sess, NotifyView(v, n, cached)[n.id].sess);
    }
  }

  lemma SamePlatsWellFormed(ts: seq<Terminal>, us: seq<Terminal>)
    requires WellFormed(ts) && |us| == |ts|
    requires forall i :: 0 <= i < |ts| ==> us[i].plat == ts[i].plat
    ensures WellFormed(us)
  {
  }

  predicate ViewWellFormed(v: map<string, User>)
  {
    forall u :: u in v ==> WellFormed(v[u].sess)
  }
}
