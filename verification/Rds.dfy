/** The store of internal/rds/rds.go: users' terminal lists and offline mail, kept in redis
    and cached in memory. Cached lists hold references to shared terminal objects; redis
    holds values. */
module Rds {
  import opened Terminals

  // ---------- Values: what is marshalled into redis ----------

  datatype Item = Item(webOnline: bool, msg: string)

  datatype Push = Push(offCnt: nat, msg: string)

  datatype Mail = Mail(push: Push, cb: seq<Item>, im: seq<Item>)

  const NO_MAIL: Mail := Mail(Push(0, ""), [], [])

  datatype Terminal = Terminal(
    id: string, plat: Plat, online: bool, login: bool, authCode: string, iosToken: string, off: Mail)

  datatype User = User(id: string, cometId: string, sess: seq<Terminal>)

  // ---------- Heap objects: what the cache shares ----------

  class Session {
    const id: string
    const plat: Plat
    var online: bool
    var login: bool
    var authCode: string
    var iosToken: string
    var off: Mail

    constructor (t: Terminal)
      ensures Value() == t
    {
      id, plat, online, login := t.id, t.plat, t.online, t.login;
      authCode, iosToken, off := t.authCode, t.iosToken, t.off;
    }

    function Value(): (t: Terminal)
      reads this
    {
      Terminal(id, plat, online, login, authCode, iosToken, off)
    }
  }

  function Values(sess: seq<Session>): (ts: seq<Terminal>)
    reads sess
    ensures |ts| == |sess|
    ensures forall i :: 0 <= i < |sess| ==> ts[i] == sess[i].Value()
  {
    seq(|sess|, i requires 0 <= i < |sess| reads sess => sess[i].Value())
  }

  class Sessions {
    const id: string
    var cometId: string
    var sess: seq<Session>

    constructor (id: string, cometId: string, sess: seq<Session>)
      ensures this.id == id && this.cometId == cometId && this.sess == sess
    {
      this.id, this.cometId, this.sess := id, cometId, sess;
    }

    function Value(): (u: User)
      reads this, sess
    {
      User(id, cometId, Values(sess))
    }
  }

  // ---------- What every stored value satisfies ----------

  predicate Distinct(items: seq<Item>)
  {
    forall i, j :: 0 <= i < j < |items| ==> items[i].msg != items[j].msg
  }

  predicate Unflagged(items: seq<Item>)
  {
    forall i :: 0 <= i < |items| ==> !items[i].webOnline
  }

  /** Saved callbacks are pairwise distinct and carry no flag, and at most 51 instant messages
      are kept. */
  predicate MailOk(m: Mail)
  {
    Distinct(m.cb) && Unflagged(m.cb) && |m.im| <= 51
  }

  predicate TerminalOk(id: string, t: Terminal)
  {
    t.id == id && MailOk(t.off)
  }

  predicate UserOk(id: string, u: User)
  {
    u.id == id && forall t :: t in u.sess ==> TerminalOk(id, t)
  }

  /** A cached terminal against its stored value: everything but `online` agrees, and a
      terminal online in memory is online in redis. */
  predicate TerminalAgrees(cached: Terminal, stored: Terminal)
  {
    cached.(online := stored.online) == stored && (cached.online ==> stored.online)
  }

  predicate UserAgrees(cached: User, stored: User)
  {
    && cached.id == stored.id && |cached.sess| == |stored.sess|
    && forall i :: 0 <= i < |cached.sess| ==> TerminalAgrees(cached.sess[i], stored.sess[i])
  }

  // ---------- Mailbox arithmetic ----------

  /** A push replaces the one before, and is counted in 16 bits. */
  function CountPush(p: Push, msg: string): Push
  {
    Push((p.offCnt + 1) % 0x1_0000, msg)
  }

  function AddPush(m: Mail, msg: string): Mail
  {
    m.(push := CountPush(m.push, msg))
  }

  predicate HasCallback(cb: seq<Item>, msg: string)
  {
    exists i :: 0 <= i < |cb| && cb[i].msg == msg
  }

  function AddCallback(m: Mail, msg: string): Mail
  {
    if HasCallback(m.cb, msg) then m else m.(cb := m.cb + [Item(false, msg)])
  }

  /** A list of more than 50 loses its oldest entry and all from position 50 on. */
  function Trim<T>(im: seq<T>): seq<T>
  {
    if |im| > 50 then im[1..50] else im
  }

  function AddIm(im: seq<Item>, item: Item): (r: seq<Item>)
  {
    Trim(im) + [item]
  }

  function AddMail(m: Mail, kind: Kind, web: bool, msg: string): Mail
  {
    match kind
    case PushKind => AddPush(m, msg)
    case CallbackKind => AddCallback(m, msg)
    case ImKind => m.(im := AddIm(m.im, Item(web, msg)))
  }

  function TakeMail(m: Mail, kind: Kind): Mail
  {
    match kind
    case PushKind => m.(push := Push(0, ""))
    case CallbackKind => m.(cb := [])
    case ImKind => m.(im := [])
  }

  lemma AddMailOk(m: Mail, kind: Kind, web: bool, msg: string)
    requires MailOk(m)
    ensures MailOk(AddMail(m, kind, web, msg)) && MailOk(TakeMail(m, kind))
  {
  }

  // ---------- Updates of a user's list ----------

  /** Index of the first terminal of the given type, or the length of the list. */
  function First(ts: seq<Terminal>, plat: Plat): (i: nat)
    ensures i <= |ts|
    ensures i < |ts| ==> ts[i].plat == plat
    ensures forall j :: 0 <= j < i ==> ts[j].plat != plat
  {
    if ts == [] || ts[0].plat == plat then 0 else 1 + First(ts[1..], plat)
  }

  /** The first terminal of a type is known by what precedes it. */
  lemma {:induction false} FirstIs(ts: seq<Terminal>, plat: Plat, i: nat)
    requires i <= |ts| && (i < |ts| ==> ts[i].plat == plat)
    requires forall j :: 0 <= j < i ==> ts[j].plat != plat
    ensures First(ts, plat) == i
  {
    if i > 0 {
      FirstIs(ts[1..], plat, i - 1);
    }
  }

  /** The scan for the web terminal stops at the first one. */
  predicate WebOnline(ts: seq<Terminal>)
  {
    var i := First(ts, PLAT_WEB);
    i < |ts| && ts[i].online
  }

  function WithMail(u: User, i: nat, m: Mail): User
    requires i < |u.sess|
  {
    u.(sess := u.sess[i := u.sess[i].(off := m)])
  }

  /** Only the first terminal of the type receives the message. */
  function SaveMail(u: User, plat: Plat, kind: Kind, msg: string): User
  {
    var i := First(u.sess, plat);
    if i < |u.sess| then WithMail(u, i, AddMail(u.sess[i].off, kind, WebOnline(u.sess), msg)) else u
  }

  function DrainMail(u: User, plat: Plat, kind: Kind): User
  {
    var i := First(u.sess, plat);
    if i < |u.sess| then WithMail(u, i, TakeMail(u.sess[i].off, kind)) else u
  }

  // ---------- A comet goes away ----------

  function AllOffline(ts: seq<Terminal>): (r: seq<Terminal>)
    ensures |r| == |ts|
  {
    seq(|ts|, i requires 0 <= i < |ts| => ts[i].(online := false))
  }

  function LeftComet(u: User, comet: string): User
  {
    if u.cometId == comet then u.(sess := AllOffline(u.sess)) else u
  }

  /** The users after a comet went away while these users were cached. */
  function CometGone(v: map<string, User>, cached: set<string>, comet: string): map<string, User>
  {
    map u | u in v :: if u in cached then LeftComet(v[u], comet) else v[u]
  }

  /** When a comet goes away, the terminals of its cached users are offline; online stays exactly
      who was online and is not one of them, and nothing else about anyone changes. */
  lemma CometGoneExactly(v: map<string, User>, cached: set<string>, comet: string, u: string, i: nat)
    requires u in v && i < |v[u].sess|
    ensures var w := CometGone(v, cached, comet);
      && w.Keys == v.Keys && w[u].id == v[u].id && w[u].cometId == v[u].cometId && |w[u].sess| == |v[u].sess|
      && w[u].sess[i] == v[u].sess[i].(online := w[u].sess[i].online)
      && (w[u].sess[i].online <==> v[u].sess[i].online && !(u in cached && v[u].cometId == comet))
  {
  }

  lemma LeftCometOk(id: string, u: User, comet: string)
    requires UserOk(id, u)
    ensures UserOk(id, LeftComet(u, comet))
  {
    forall t | t in AllOffline(u.sess)
      ensures TerminalOk(id, t)
    {
      var i :| 0 <= i < |u.sess| && t == AllOffline(u.sess)[i];
      assert u.sess[i] in u.sess;
    }
  }

  /** The users after a message was put into one user's offline mail, or taken out of it. */
  function Saved(v: map<string, User>, id: string, plat: Plat, kind: Kind, msg: string): map<string, User>
  {
    if id in v then v[id := SaveMail(v[id], plat, kind, msg)] else v
  }

  function Drained(v: map<string, User>, id: string, plat: Plat, kind: Kind): map<string, User>
  {
    if id in v then v[id := DrainMail(v[id], plat, kind)] else v
  }

  /** The users after several messages were saved, one by one. */
  function SavedAll(v: map<string, User>, id: string, plat: Plat, kind: Kind, msgs: seq<string>): map<string, User>
  {
    if msgs == [] then v
    else Saved(SavedAll(v, id, plat, kind, msgs[..|msgs| - 1]), id, plat, kind, msgs[|msgs| - 1])
  }

  lemma SavedAllAppend(v: map<string, User>, id: string, plat: Plat, kind: Kind, msgs: seq<string>, msg: string)
    ensures SavedAll(v, id, plat, kind, msgs + [msg]) == Saved(SavedAll(v, id, plat, kind, msgs), id, plat, kind, msg)
  {
    assert (msgs + [msg])[..|msgs|] == msgs;
  }

  /** The mail of a terminal, empty when there is no such terminal. */
  function MailOf(v: map<string, User>, id: string, plat: Plat): Mail
  {
    if id in v && First(v[id].sess, plat) < |v[id].sess|
    then v[id].sess[First(v[id].sess, plat)].off else NO_MAIL
  }

  /** A callback that is already in the box is not saved again. */
  predicate Duplicate(v: map<string, User>, id: string, plat: Plat, msg: string)
  {
    HasCallback(MailOf(v, id, plat).cb, msg)
  }

  // ---------- Redis and the cache after an operation on one user ----------

  /** Redis after an operation on user `id` that wrote him back, or did not. */
  function Stored(r: map<string, User>, v: map<string, User>, id: string, writes: bool): map<string, User>
  {
    if writes && id in v then r[id := v[id]] else r
  }

  /** Looking up a user who is known leaves him in the cache. */
  function CachedWith(cached: set<string>, v: map<string, User>, id: string): set<string>
  {
    if id in v then cached + {id} else cached
  }

  predicate HasTerminal(v: map<string, User>, id: string, plat: Plat)
  {
    id in v && First(v[id].sess, plat) < |v[id].sess|
  }
}
