/** What saving and draining do to one mailbox over time (internal/rds/rds.go,
    comet/offmsg.go). */
module Mailboxes {
  import opened Terminals
  import opened Rds
  import opened Logins
  import AuthTrace

  // ---------- Which instant messages survive when nothing is drained ----------

  /** The mailbox after saving these messages, one by one, into an empty one. */
  function Kept(ms: seq<Item>): seq<Item>
  {
    if ms == [] then [] else AddIm(Kept(ms[..|ms| - 1]), ms[|ms| - 1])
  }

  /** Of the messages past the first 50, only the 52nd, 54th and so on are ever kept for long:
      position `j` of that thinned-out stream, counted from 0. */
  function Thinned(j: nat): nat
  {
    if j < 50 then j else 2 * j - 49
  }

  lemma {:induction false} KeepsAllUpTo51(ms: seq<Item>)
    requires |ms| <= 51
    ensures Kept(ms) == ms
  {
    if ms != [] {
      KeepsAllUpTo51(ms[..|ms| - 1]);
      assert ms[..|ms| - 1] + [ms[|ms| - 1]] == ms;
    }
  }

  /** An odd number of messages, from 53 on: the newest joins what was kept before it. */
  lemma KeptOdd(ms: seq<Item>)
    requires |ms| >= 53 && |ms| % 2 == 1
    ensures Kept(ms) == Kept(ms[..|ms| - 1]) + [ms[|ms| - 1]]
  {
    KeptEven(ms[..|ms| - 1]);
    assert Kept(ms) == AddIm(Kept(ms[..|ms| - 1]), ms[|ms| - 1]);
    hide Kept, Thinned;
  }

  /** An even number of messages, from 52 on: the last 50 of m1..m50, m52, m54, ... remain. */
  lemma {:induction false} KeptEven(ms: seq<Item>)
    requires |ms| >= 52 && |ms| % 2 == 0
    ensures |Kept(ms)| == 50
    ensures var dropped := (|ms| - 50) / 2;
      forall i :: 0 <= i < 50 ==> Kept(ms)[i] == ms[Thinned(i + dropped)]
  {
    var k := |ms|;
    var one, two := ms[..k - 1], ms[..k - 2];
    assert one[..k - 2] == two;
    if k == 52 {
      KeepsAllUpTo51(one);
    } else {
      KeptEven(two);
      assert Kept(one) == Kept(two) + [ms[k - 2]];
    }
    assert Kept(ms) == Kept(one)[1..50] + [ms[k - 1]];
  }

  /** However many messages came, at most 51 are there, and the newest is the last. */
  lemma {:induction false} NewestIsLast(ms: seq<Item>)
    ensures |Kept(ms)| <= 51
    ensures ms != [] ==> Kept(ms) != [] && Kept(ms)[|Kept(ms)| - 1] == ms[|ms| - 1]
  {
    if ms != [] {
      NewestIsLast(ms[..|ms| - 1]);
    }
  }

  // ---------- The mail of one terminal ----------

  function AddAll(m: Mail, kind: Kind, web: bool, msgs: seq<string>): Mail
  {
    if msgs == [] then m else AddMail(AddAll(m, kind, web, msgs[..|msgs| - 1]), kind, web, msgs[|msgs| - 1])
  }

  function Items(web: bool, msgs: seq<string>): (items: seq<Item>)
    ensures |items| == |msgs|
  {
    seq(|msgs|, i requires 0 <= i < |msgs| => Item(web, msgs[i]))
  }

  lemma {:induction false} FirstSame(ts: seq<Terminal>, us: seq<Terminal>, plat: Plat)
    requires |ts| == |us| && forall i :: 0 <= i < |ts| ==> us[i].plat == ts[i].plat
    ensures First(us, plat) == First(ts, plat)
  {
    if ts != [] && ts[0].plat != plat {
      FirstSame(ts[1..], us[1..], plat);
    }
  }

  /** New mail for a terminal leaves the list as it is but for that. */
  lemma WithMailSame(u: User, i: nat, m: Mail, plat: Plat)
    requires i < |u.sess|
    ensures First(WithMail(u, i, m).sess, plat) == First(u.sess, plat)
    ensures WebOnline(WithMail(u, i, m).sess) == WebOnline(u.sess)
  {
    FirstSame(u.sess, WithMail(u, i, m).sess, plat);
    FirstSame(u.sess, WithMail(u, i, m).sess, PLAT_WEB);
  }

  lemma MailAfterSave(v: map<string, User>, id: string, plat: Plat, kind: Kind, msg: string)
    requires HasTerminal(v, id, plat)
    ensures var w := Saved(v, id, plat, kind, msg);
      && HasTerminal(w, id, plat) && WebOnline(w[id].sess) == WebOnline(v[id].sess)
      && MailOf(w, id, plat) == AddMail(MailOf(v, id, plat), kind, WebOnline(v[id].sess), msg)
  {
    var i := First(v[id].sess, plat);
    WithMailSame(v[id], i, AddMail(v[id].sess[i].off, kind, WebOnline(v[id].sess), msg), plat);
    hide AddMail, WebOnline;
  }

  lemma MailAfterDrain(v: map<string, User>, id: string, plat: Plat, kind: Kind)
    requires HasTerminal(v, id, plat)
    ensures var w := Drained(v, id, plat, kind);
      && HasTerminal(w, id, plat) && WebOnline(w[id].sess) == WebOnline(v[id].sess)
      && MailOf(w, id, plat) == TakeMail(MailOf(v, id, plat), kind)
  {
    var i := First(v[id].sess, plat);
    WithMailSame(v[id], i, TakeMail(v[id].sess[i].off, kind), plat);
    hide TakeMail, WebOnline;
  }

  lemma {:induction false} MailAfterSaves(v: map<string, User>, id: string, plat: Plat, kind: Kind, msgs: seq<string>)
    requires HasTerminal(v, id, plat)
    ensures var w := SavedAll(v, id, plat, kind, msgs);
      && HasTerminal(w, id, plat) && WebOnline(w[id].sess) == WebOnline(v[id].sess)
      && MailOf(w, id, plat) == AddAll(MailOf(v, id, plat), kind, WebOnline(v[id].sess), msgs)
  {
    if msgs != [] {
      var init := msgs[..|msgs| - 1];
      MailAfterSaves(v, id, plat, kind, init);
      MailAfterSave(SavedAll(v, id, plat, kind, init), id, plat, kind, msgs[|msgs| - 1]);
    }
    hide AddMail, WebOnline, HasTerminal, MailOf, Saved;
  }

  /** Distinct callbacks saved into an empty box are all there, in order. */
  lemma {:induction false} CallbacksRefilled(m: Mail, web: bool, msgs: seq<string>)
    requires m.cb == [] && forall i, j :: 0 <= i < j < |msgs| ==> msgs[i] != msgs[j]
    ensures AddAll(m, CallbackKind, web, msgs) == m.(cb := Items(false, msgs))
  {
    if msgs == [] {
      assert Items(false, msgs) == [];
    } else {
      var init := msgs[..|msgs| - 1];
      CallbacksRefilled(m, web, init);
      assert Items(false, msgs) == Items(false, init) + [Item(false, msgs[|msgs| - 1])];
    }
  }

  /** Instant messages saved into an empty box: what `Kept` says. */
  lemma {:induction false} ImsRefilled(m: Mail, web: bool, msgs: seq<string>)
    requires m.im == []
    ensures AddAll(m, ImKind, web, msgs) == m.(im := Kept(Items(web, msgs)))
  {
    if msgs == [] {
      assert Items(web, msgs) == [];
    } else {
      var init := msgs[..|msgs| - 1];
      ImsRefilled(m, web, init);
      assert Items(web, msgs)[..|msgs| - 1] == Items(web, init);
    }
  }

  /** What `Kept` says of the mailbox holds in the store. */
  lemma MailboxAfterSaves(v: map<string, User>, id: string, plat: Plat, msgs: seq<string>)
    requires HasTerminal(v, id, plat) && MailOf(v, id, plat).im == []
    ensures MailOf(SavedAll(v, id, plat, ImKind, msgs), id, plat).im == Kept(Items(WebOnline(v[id].sess), msgs))
  {
    MailAfterSaves(v, id, plat, ImKind, msgs);
    ImsRefilled(MailOf(v, id, plat), WebOnline(v[id].sess), msgs);
  }

  // ---------- Draining on registration ----------

  /** Which of a kind's drained messages can be written to the new connection. */
  type Writes = (Kind, nat) -> bool

  /** The first `n` messages that could not be written, in order. */
  function Failed(items: seq<Item>, kind: Kind, ok: Writes, n: nat): (r: seq<string>)
    requires n <= |items|
    ensures |r| <= n
  {
    if n == 0 then []
    else Failed(items, kind, ok, n - 1) + if ok(kind, n - 1) then [] else [items[n - 1].msg]
  }

  /** The first `n` messages that could be written, in order. */
  function Written(items: seq<Item>, kind: Kind, ok: Writes, n: nat): (r: seq<string>)
    requires n <= |items|
    ensures |r| + |Failed(items, kind, ok, n)| == n
  {
    if n == 0 then []
    else Written(items, kind, ok, n - 1) + if ok(kind, n - 1) then [items[n - 1].msg] else []
  }

  function Bodies(items: seq<Item>): (r: seq<string>)
    ensures |r| == |items|
  {
    seq(|items|, i requires 0 <= i < |items| => items[i].msg)
  }

  /** One kind drained, and what could not be written saved again. */
  function Redelivered(v: map<string, User>, id: string, plat: Plat, kind: Kind, items: seq<Item>, ok: Writes)
    : map<string, User>
  {
    SavedAll(Drained(v, id, plat, kind), id, plat, kind, Failed(items, kind, ok, |items|))
  }

  /** The push box always yields an empty push, which is saved again if it cannot be written. */
  function PushRedelivered(v: map<string, User>, id: string, plat: Plat, ok: Writes): map<string, User>
  {
    var d := Drained(v, id, plat, PushKind);
    if HasTerminal(v, id, plat) && !ok(PushKind, 0) then Saved(d, id, plat, PushKind, "") else d
  }

  function RestRedelivered(v: map<string, User>, id: string, plat: Plat, ok: Writes): map<string, User>
  {
    var w := Redelivered(v, id, plat, CallbackKind, MailOf(v, id, plat).cb, ok);
    Redelivered(w, id, plat, ImKind, MailOf(w, id, plat).im, ok)
  }

  /** The users after a terminal's mail was drained into a new session. */
  function AfterDrain(v: map<string, User>, id: string, plat: Plat, ok: Writes): map<string, User>
  {
    if plat == PLAT_WEB then v
    else RestRedelivered(if plat == PLAT_ANDROID then PushRedelivered(v, id, plat, ok) else v, id, plat, ok)
  }

  lemma {:induction false} FailedIn(items: seq<Item>, kind: Kind, ok: Writes, n: nat)
    requires n <= |items|
    ensures forall m :: m in Failed(items, kind, ok, n) ==> exists k :: 0 <= k < n && items[k].msg == m
  {
    if n > 0 {
      FailedIn(items, kind, ok, n - 1);
      forall m | m in Failed(items, kind, ok, n)
        ensures exists k :: 0 <= k < n && items[k].msg == m
      {
        if m !in Failed(items, kind, ok, n - 1) {
          assert items[n - 1].msg == m;
        }
      }
    }
  }

  lemma {:induction false} FailedDistinct(items: seq<Item>, kind: Kind, ok: Writes, n: nat)
    requires n <= |items| && Distinct(items)
    ensures forall i, j :: 0 <= i < j < |Failed(items, kind, ok, n)| ==>
      Failed(items, kind, ok, n)[i] != Failed(items, kind, ok, n)[j]
  {
    if n > 0 {
      FailedDistinct(items, kind, ok, n - 1);
      FailedIn(items, kind, ok, n - 1);
      var f := Failed(items, kind, ok, n - 1);
      assert forall i :: 0 <= i < |f| ==> f[i] in f;
    }
  }

  /** If nothing can be written, everything has failed. */
  lemma {:induction false} AllFailed(items: seq<Item>, kind: Kind, ok: Writes, n: nat)
    requires n <= |items| && forall k :: 0 <= k < n ==> !ok(kind, k)
    ensures Failed(items, kind, ok, n) == Bodies(items)[..n]
  {
    if n > 0 {
      AllFailed(items, kind, ok, n - 1);
      assert Bodies(items)[..n] == Bodies(items)[..n - 1] + [items[n - 1].msg];
    }
  }

  lemma CallbacksLossless(v: map<string, User>, id: string, plat: Plat, ok: Writes)
    requires HasTerminal(v, id, plat) && MailOk(MailOf(v, id, plat))
    ensures var m := MailOf(v, id, plat);
      var w := Redelivered(v, id, plat, CallbackKind, m.cb, ok);
      && HasTerminal(w, id, plat) && WebOnline(w[id].sess) == WebOnline(v[id].sess)
      && MailOf(w, id, plat) == m.(cb := Items(false, Failed(m.cb, CallbackKind, ok, |m.cb|)))
  {
    var m := MailOf(v, id, plat);
    var f := Failed(m.cb, CallbackKind, ok, |m.cb|);
    MailAfterDrain(v, id, plat, CallbackKind);
    MailAfterSaves(Drained(v, id, plat, CallbackKind), id, plat, CallbackKind, f);
    FailedDistinct(m.cb, CallbackKind, ok, |m.cb|);
    CallbacksRefilled(m.(cb := []), WebOnline(v[id].sess), f);
    hide AddAll, Drained, SavedAll, MailOf, HasTerminal;
  }

  lemma ImsLossless(v: map<string, User>, id: string, plat: Plat, ok: Writes)
    requires HasTerminal(v, id, plat) && MailOk(MailOf(v, id, plat))
    ensures var m := MailOf(v, id, plat);
      var w := Redelivered(v, id, plat, ImKind, m.im, ok);
      && HasTerminal(w, id, plat)
      && MailOf(w, id, plat) == m.(im := Items(WebOnline(v[id].sess), Failed(m.im, ImKind, ok, |m.im|)))
  {
    var m := MailOf(v, id, plat);
    var f, web := Failed(m.im, ImKind, ok, |m.im|), WebOnline(v[id].sess);
    var d := Drained(v, id, plat, ImKind);
    assert |f| <= 51 && Redelivered(v, id, plat, ImKind, m.im, ok) == SavedAll(d, id, plat, ImKind, f);
    MailAfterDrain(v, id, plat, ImKind);
    assert MailOf(d, id, plat) == m.(im := []);
    hide *;
    MailAfterSaves(d, id, plat, ImKind, f);
    ImsRefilled(m.(im := []), web, f);
    KeepsAllUpTo51(Items(web, f));
  }

  lemma PushDrained(v: map<string, User>, id: string, plat: Plat, ok: Writes)
    requires HasTerminal(v, id, plat)
    ensures var w := PushRedelivered(v, id, plat, ok);
      && HasTerminal(w, id, plat) && WebOnline(w[id].sess) == WebOnline(v[id].sess)
      && MailOf(w, id, plat) == MailOf(v, id, plat).(push := if ok(PushKind, 0) then Push(0, "") else Push(1, ""))
  {
    MailAfterDrain(v, id, plat, PushKind);
    MailAfterSave(Drained(v, id, plat, PushKind), id, plat, PushKind, "");
    hide Drained, Saved, MailOf, HasTerminal, WebOnline;
  }

  /** A mailbox after a drain: the push box of an Android terminal holds nothing, or one empty
      push if that could not be written; the other boxes hold exactly the messages that could
      not be written, in their old order, instant messages under the web terminal's flag of now. */
  function LeftOver(m: Mail, plat: Plat, web: bool, ok: Writes): Mail
  {
    Mail(if plat != PLAT_ANDROID then m.push else if ok(PushKind, 0) then Push(0, "") else Push(1, ""),
      Items(false, Failed(m.cb, CallbackKind, ok, |m.cb|)),
      Items(web, Failed(m.im, ImKind, ok, |m.im|)))
  }

  lemma DrainLossless(v: map<string, User>, id: string, plat: Plat, ok: Writes)
    requires HasTerminal(v, id, plat) && MailOk(MailOf(v, id, plat)) && plat != PLAT_WEB
    ensures MailOf(AfterDrain(v, id, plat, ok), id, plat)
         == LeftOver(MailOf(v, id, plat), plat, WebOnline(v[id].sess), ok)
  {
    var m := MailOf(v, id, plat);
    var v1 := if plat == PLAT_ANDROID then PushRedelivered(v, id, plat, ok) else v;
    PushDrained(v, id, plat, ok);
    CallbacksLossless(v1, id, plat, ok);
    var v2 := Redelivered(v1, id, plat, CallbackKind, MailOf(v1, id, plat).cb, ok);
    FailedDistinct(m.cb, CallbackKind, ok, |m.cb|);
    CallbackItemsOk(Failed(m.cb, CallbackKind, ok, |m.cb|));
    hide Redelivered, PushRedelivered, Failed, MailOf, HasTerminal, WebOnline, Items;
    ImsLossless(v2, id, plat, ok);
  }

  lemma CallbackItemsOk(msgs: seq<string>)
    requires forall i, j :: 0 <= i < j < |msgs| ==> msgs[i] != msgs[j]
    ensures Distinct(Items(false, msgs)) && Unflagged(Items(false, msgs))
  {
  }

  /** If no write succeeds the callbacks are back as they were, and so are the bodies of the
      instant messages, in order. */
  lemma DrainRestores(v: map<string, User>, id: string, plat: Plat, ok: Writes)
    requires HasTerminal(v, id, plat) && MailOk(MailOf(v, id, plat)) && plat != PLAT_WEB
    requires forall kind, k :: !ok(kind, k)
    ensures var m, w := MailOf(v, id, plat), MailOf(AfterDrain(v, id, plat, ok), id, plat);
      w.cb == m.cb && w.im == Items(WebOnline(v[id].sess), Bodies(m.im))
  {
    var m := MailOf(v, id, plat);
    DrainLossless(v, id, plat, ok);
    AllFailed(m.cb, CallbackKind, ok, |m.cb|);
    AllFailed(m.im, ImKind, ok, |m.im|);
    hide AfterDrain, MailOf, HasTerminal, WebOnline;
    assert Items(false, Bodies(m.cb)) == m.cb;
    assert Bodies(m.im)[..|m.im|] == Bodies(m.im);
  }

  /** If no write succeeds the instant messages are exactly as they were if and only if all of
      them were saved with the web terminal in the state it is in now. */
  lemma DrainRestoresExactly(v: map<string, User>, id: string, plat: Plat, ok: Writes)
    requires HasTerminal(v, id, plat) && MailOk(MailOf(v, id, plat)) && plat != PLAT_WEB
    requires forall kind, k :: !ok(kind, k)
    ensures var m, w := MailOf(v, id, plat), MailOf(AfterDrain(v, id, plat, ok), id, plat);
      && (w.im == m.im <==> forall i :: 0 <= i < |m.im| ==> m.im[i].webOnline == WebOnline(v[id].sess))
      && (w == m <==> w.im == m.im && (plat == PLAT_ANDROID ==> m.push == Push(1, "")))
  {
    DrainLossless(v, id, plat, ok);
    DrainRestores(v, id, plat, ok);
    FlagsDecide(MailOf(v, id, plat).im, WebOnline(v[id].sess));
    hide AfterDrain, MailOf, HasTerminal, WebOnline, Failed, Items, Bodies, MailOk;
  }

  lemma FlagsDecide(im: seq<Item>, web: bool)
    ensures Items(web, Bodies(im)) == im <==> forall i :: 0 <= i < |im| ==> im[i].webOnline == web
  {
    var r := Items(web, Bodies(im));
    assert forall i :: 0 <= i < |r| ==> r[i] == Item(web, im[i].msg);
  }

  /** A reachable mailbox that is not restored: the message came while the web terminal was
      online, and the drain fails after it has left. */
  lemma FlagsLost(id: string, plat: Plat, a: string, b: string, comet: string, msg: string, ok: Writes)
    requires plat != PLAT_WEB && forall kind, k :: !ok(kind, k)
    ensures var v := AuthTrace.Run(map[], FlaggedThenGone(id, plat, a, b, comet, msg));
      && HasTerminal(v, id, plat) && MailOf(v, id, plat).im == [Item(true, msg)]
      && MailOf(AfterDrain(v, id, plat, ok), id, plat).im == [Item(false, msg)]
  {
    FlaggedThenGoneView(id, plat, a, b, comet, msg);
    var v := AuthTrace.Run(map[], FlaggedThenGone(id, plat, a, b, comet, msg));
    hide AuthTrace.Run, AfterDrain;
    assert First(v[id].sess[1..], plat) == 0;
    DrainRestores(v, id, plat, ok);
  }

  function FlaggedThenGone(id: string, plat: Plat, a: string, b: string, comet: string, msg: string)
    : seq<AuthTrace.Event>
  {
    [AuthTrace.UserState(LoginMsg(id, PLAT_WEB, a, "", true)),
     AuthTrace.Notified(StateNotify(id, PLAT_WEB, a, comet, true), true),
     AuthTrace.UserState(LoginMsg(id, plat, b, "", true)),
     AuthTrace.MailSaved(id, plat, ImKind, msg),
     AuthTrace.Notified(StateNotify(id, PLAT_WEB, a, comet, false), true)]
  }

  lemma FlaggedThenGoneView(id: string, plat: Plat, a: string, b: string, comet: string, msg: string)
    requires plat != PLAT_WEB
    ensures AuthTrace.Run(map[], FlaggedThenGone(id, plat, a, b, comet, msg)) ==
            map[id := User(id, comet, [Fresh(LoginMsg(id, PLAT_WEB, a, "", true)),
                  Fresh(LoginMsg(id, plat, b, "", true)).(off := NO_MAIL.(im := [Item(true, msg)]))])]
  {
    var es := FlaggedThenGone(id, plat, a, b, comet, msg);
    assert es[0] == AuthTrace.UserState(LoginMsg(id, PLAT_WEB, a, "", true)) && |es| == 5;
    assert es[1] == AuthTrace.Notified(StateNotify(id, PLAT_WEB, a, comet, true), true);
    assert es[2] == AuthTrace.UserState(LoginMsg(id, plat, b, "", true));
    assert es[3] == AuthTrace.MailSaved(id, plat, ImKind, msg);
    assert es[4] == AuthTrace.Notified(StateNotify(id, PLAT_WEB, a, comet, false), true);
    var web, t := Fresh(LoginMsg(id, PLAT_WEB, a, "", true)), Fresh(LoginMsg(id, plat, b, "", true));
    var on, full := web.(online := true), t.(off := NO_MAIL.(im := [Item(true, msg)]));
    WebComesOnline(id, a, comet, web);
    PhoneJoins(id, plat, b, comet, on);
    SaveUnderWeb(id, plat, comet, on, t, msg);
    WebGoesOffline(id, a, comet, on, full);
    hide *;
    FiveEvents(es, map[id := User(id, "", [web])], map[id := User(id, comet, [on])],
      map[id := User(id, comet, [on, t])],
      map[id := User(id, comet, [on, full])], map[id := User(id, comet, [web, full])]);
  }

  lemma FiveEvents(es: seq<AuthTrace.Event>, v1: map<string, User>, v2: map<string, User>, v3: map<string, User>,
                   v4: map<string, User>, v5: map<string, User>)
    requires |es| == 5 && AuthTrace.Apply(map[], es[0]) == v1 && AuthTrace.Apply(v1, es[1]) == v2
    requires AuthTrace.Apply(v2, es[2]) == v3 && AuthTrace.Apply(v3, es[3]) == v4 && AuthTrace.Apply(v4, es[4]) == v5
    ensures AuthTrace.Run(map[], es) == v5
  {
    hide AuthTrace.Apply;
    assert es[..0] == [] && es[..5] == es;
    OneEvent(es, 0, map[], v1);
    OneEvent(es, 1, v1, v2);
    OneEvent(es, 2, v2, v3);
    OneEvent(es, 3, v3, v4);
    OneEvent(es, 4, v4, v5);
  }

  lemma WebComesOnline(id: string, a: string, comet: string, web: Terminal)
    requires web == Fresh(LoginMsg(id, PLAT_WEB, a, "", true))
    ensures AuthTrace.Apply(map[], AuthTrace.UserState(LoginMsg(id, PLAT_WEB, a, "", true)))
         == map[id := User(id, "", [web])]
    ensures AuthTrace.Apply(map[id := User(id, "", [web])],
              AuthTrace.Notified(StateNotify(id, PLAT_WEB, a, comet, true), true))
         == map[id := User(id, comet, [web.(online := true)])]
  {
    assert MarkOnline([web], StateNotify(id, PLAT_WEB, a, comet, true)) == [web.(online := true)];
  }

  lemma PhoneJoins(id: string, plat: Plat, b: string, comet: string, on: Terminal)
    requires plat != PLAT_WEB && on.plat == PLAT_WEB
    ensures var msg := LoginMsg(id, plat, b, "", true);
      AuthTrace.Apply(map[id := User(id, comet, [on])], AuthTrace.UserState(msg))
        == map[id := User(id, comet, [on, Fresh(msg)])]
  {
    var msg := LoginMsg(id, plat, b, "", true);
    LoginListCases([on], msg);
    assert !Clashes(on, plat) && ClashAt([on], plat) == 1 + ClashAt([on][1..], plat) == 1;
    assert LoginList([on], msg) == [on] + [Fresh(msg)] == [on, Fresh(msg)];
  }

  lemma WebGoesOffline(id: string, a: string, comet: string, on: Terminal, t: Terminal)
    requires on.plat == PLAT_WEB && on.authCode == a && on.online
    ensures AuthTrace.Apply(map[id := User(id, comet, [on, t])],
              AuthTrace.Notified(StateNotify(id, PLAT_WEB, a, comet, false), true))
         == map[id := User(id, comet, [on.(online := false), t])]
  {
    assert ConcernedAt([on, t], StateNotify(id, PLAT_WEB, a, comet, false)) == 0;
    assert [on, t][0 := on.(online := false)] == [on.(online := false), t];
  }

  lemma SaveUnderWeb(id: string, plat: Plat, comet: string, web: Terminal, t: Terminal, msg: string)
    requires plat != PLAT_WEB && web.plat == PLAT_WEB && web.online && t.plat == plat && t.off == NO_MAIL
    ensures AuthTrace.Apply(map[id := User(id, comet, [web, t])], AuthTrace.MailSaved(id, plat, ImKind, msg))
         == map[id := User(id, comet, [web, t.(off := NO_MAIL.(im := [Item(true, msg)]))])]
  {
    assert First([web, t][1..], plat) == 0;
    assert First([web, t], plat) == 1 && First([web, t], PLAT_WEB) == 0;
    var full := NO_MAIL.(im := [Item(true, msg)]);
    assert AddMail(NO_MAIL, ImKind, true, msg) == full;
    assert [web, t][1 := t.(off := full)] == [web, t.(off := full)];
  }

  lemma OneEvent(es: seq<AuthTrace.Event>, i: nat, v: map<string, User>, w: map<string, User>)
    requires i < |es| && AuthTrace.Run(map[], es[..i]) == v && AuthTrace.Apply(v, es[i]) == w
    ensures AuthTrace.Run(map[], es[..i + 1]) == w
  {
    assert es[..i + 1][..i] == es[..i];
  }
}
