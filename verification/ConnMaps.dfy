/** The comet's two cross-referenced maps (comet/session.go): connection address to session
    key, and session key to session. A session is seen here as its address and token. */
module ConnMaps {
  import opened Terminals

  /** The string "id-plat", which determines both parts. */
  datatype Key = Key(id: string, plat: Plat)

  datatype Info = Info(conn: string, token: string)

  datatype Maps = Maps(ids: map<string, Key>, sessions: map<Key, Info>)

  /** A registration that passed authentication; a connection that has a key keeps it. */
  function Register(m: Maps, conn: string, k: Key, token: string): Maps
  {
    if conn in m.ids then m
    else Maps(m.ids[conn := k], m.sessions[k := Info(conn, token)])
  }

  /** The end of a connection takes away whatever session its key names now. */
  function Unregister(m: Maps, conn: string): Maps
  {
    if conn in m.ids && m.ids[conn] in m.sessions then
      Maps(m.ids - {conn}, m.sessions - {m.ids[conn]})
    else m
  }

  predicate Hits(m: Maps, k: Key, token: string)
  {
    k in m.sessions && m.sessions[k].token == token
  }

  function Kick(m: Maps, k: Key, token: string): Maps
  {
    if Hits(m, k, token) then Maps(m.ids - {m.sessions[k].conn}, m.sessions - {k}) else m
  }

  // ---------- Over all runs ----------

  datatype Op =
    | DoRegister(conn: string, k: Key, token: string)
    | DoUnregister(conn: string)
    | DoKick(k: Key, token: string)

  function Step(m: Maps, op: Op): Maps
  {
    match op
    case DoRegister(conn, k, token) => Register(m, conn, k, token)
    case DoUnregister(conn) => Unregister(m, conn)
    case DoKick(k, token) => Kick(m, k, token)
  }

  function Run(ops: seq<Op>): Maps
  {
    if ops == [] then Maps(map[], map[]) else Step(Run(ops[..|ops| - 1]), ops[|ops| - 1])
  }

  /** Every stored session is indexed by its own connection. */
  predicate Indexed(m: Maps)
  {
    forall k :: k in m.sessions ==> m.sessions[k].conn in m.ids && m.ids[m.sessions[k].conn] == k
  }

  /** The connection's key has no session, or one of another connection. */
  predicate Stale(m: Maps, c: string)
  {
    c in m.ids && !(m.ids[c] in m.sessions && m.sessions[m.ids[c]].conn == c)
  }

  /** The two maps are inverse bijections. */
  predicate Inverse(m: Maps)
  {
    Indexed(m) && forall c :: c in m.ids ==> !Stale(m, c)
  }

  lemma StepIndexed(m: Maps, op: Op)
    requires Indexed(m)
    ensures Indexed(Step(m, op))
  {
  }

  lemma {:induction false} RunIndexed(ops: seq<Op>)
    ensures Indexed(Run(ops))
  {
    if ops != [] {
      RunIndexed(ops[..|ops| - 1]);
      StepIndexed(Run(ops[..|ops| - 1]), ops[|ops| - 1]);
    }
  }

  /** Over all runs, no two stored sessions share a connection. */
  lemma NoSharedConnection(ops: seq<Op>, k: Key, l: Key)
    requires k in Run(ops).sessions && l in Run(ops).sessions
    requires Run(ops).sessions[k].conn == Run(ops).sessions[l].conn
    ensures k == l
  {
    RunIndexed(ops);
  }

  /** No registration takes a key that still has a session. */
  predicate KeysNotReused(ops: seq<Op>)
  {
    forall i :: 0 <= i < |ops| && ops[i].DoRegister? && ops[i].conn !in Run(ops[..i]).ids ==>
      ops[i].k !in Run(ops[..i]).sessions
  }

  lemma {:induction false} RunInverse(ops: seq<Op>)
    requires KeysNotReused(ops)
    ensures Inverse(Run(ops))
  {
    if ops != [] {
      var init := ops[..|ops| - 1];
      assert forall i :: 0 <= i < |init| ==> init[..i] == ops[..i];
      RunInverse(init);
      NoReuseInverse(Run(init), ops[|ops| - 1]);
      hide Inverse, Step;
    }
  }

  lemma NoReuseInverse(m: Maps, op: Op)
    requires Inverse(m) && (op.DoRegister? && op.conn !in m.ids ==> op.k !in m.sessions)
    ensures Inverse(Step(m, op))
  {
  }

  /** A stale connection never goes without leaving another behind. */
  lemma StaleStays(m: Maps, op: Op, c: string) returns (d: string)
    requires Indexed(m) && Stale(m, c)
    ensures Stale(Step(m, op), d)
  {
    d := c;
    if op == DoUnregister(c) && m.ids[c] in m.sessions {
      d := m.sessions[m.ids[c]].conn;
    }
  }

  /** A registration that takes a key in use makes the old connection stale. */
  lemma ReuseMakesStale(m: Maps, conn: string, k: Key, token: string)
    requires Indexed(m) && conn !in m.ids && k in m.sessions
    ensures Stale(Step(m, DoRegister(conn, k, token)), m.sessions[k].conn)
  {
  }

  lemma {:induction false} ReuseLeavesStale(ops: seq<Op>) returns (c: string)
    requires !KeysNotReused(ops)
    ensures Stale(Run(ops), c)
  {
    var init, op := ops[..|ops| - 1], ops[|ops| - 1];
    assert forall i :: 0 <= i < |init| ==> init[..i] == ops[..i];
    RunIndexed(init);
    if KeysNotReused(init) {
      c := Run(init).sessions[op.k].conn;
      ReuseMakesStale(Run(init), op.conn, op.k, op.token);
    } else {
      c := ReuseLeavesStale(init);
      c := StaleStays(Run(init), op, c);
    }
  }

  /** After a run the maps are inverse bijections exactly if no registration in it took a key
      that still had a session. */
  lemma InverseExactly(ops: seq<Op>)
    ensures Inverse(Run(ops)) <==> KeysNotReused(ops)
  {
    if KeysNotReused(ops) {
      RunInverse(ops);
    } else {
      var c := ReuseLeavesStale(ops);
    }
  }

  /** Reusing a key breaks the bijection: two connections lead to one session, and the
      stale one can end it. */
  lemma ReusedKeyBreaksInverse(k: Key, c: string, d: string, token: string)
    requires c != d
    ensures var ops := [DoRegister(c, k, token), DoRegister(d, k, token)];
      !Inverse(Run(ops)) && Run(ops + [DoUnregister(c)]) == Maps(map[d := k], map[])
  {
    var ops := [DoRegister(c, k, token), DoRegister(d, k, token)];
    assert ops[..1] == [ops[0]] && ops[..1][..0] == [];
    var all := ops + [DoUnregister(c)];
    assert all[..2] == ops;
    assert Run(ops[..1]) == Maps(map[c := k], map[k := Info(c, token)]);
    assert Run(ops) == Maps(map[c := k, d := k], map[k := Info(d, token)]);
    assert Stale(Run(ops), c);
    assert Run(all) == Unregister(Run(ops), c);
  }
}
