/** Runs of router and comet together, seen from either side: the router's users go through one of the
    histories of `AuthTrace`, and the comet's maps through one of the runs of `ConnMaps`. */
module Projections {
  import opened Terminals
  import opened Rds
  import opened Logins
  import AuthTrace
  import ConnMaps
  import opened Joint

  // ---------- The router's side ----------

  /** What the router sees of a move. */
  function EventsOf(s: System, move: Move): seq<AuthTrace.Event>
  {
    match move
    case LoginEvent(msg) => [AuthTrace.UserState(msg)]
    case Deliver(cached) => if s.queue == [] then [] else [AuthTrace.Notified(s.queue[0], cached)]
    case SavesMail(id, plat, kind, body) => [AuthTrace.MailSaved(id, plat, kind, body)]
    case TakesMail(id, plat, kind) => [AuthTrace.MailTaken(id, plat, kind)]
    case _ => []
  }

  function Events(comet: string, moves: seq<Move>): seq<AuthTrace.Event>
  {
    if moves == [] then []
    else
      var init := moves[..|moves| - 1];
      Events(comet, init) + EventsOf(Run(comet, init), moves[|moves| - 1])
  }

  lemma {:induction false} CarryKeepsView(s: System, calls: seq<Call>)
    ensures CarryAll(s, calls).view == s.view
    decreases calls
  {
    if calls != [] {
      CarryKeepsView(Carry(s, calls[0]), calls[1..]);
    }
  }

  lemma MoveSeen(s: System, move: Move)
    ensures |EventsOf(s, move)| <= 1
    ensures Step(s, move).view
         == if EventsOf(s, move) == [] then s.view else AuthTrace.Apply(s.view, EventsOf(s, move)[0])
  {
    if move.LoginEvent? {
      CarryKeepsView(s, CallsOf(s, move.msg));
    }
    hide CarryAll, CallsOf, LoginView, NotifyView, Saved, Drained, AuthOk;
  }

  lemma OneMoveMore(comet: string, moves: seq<Move>)
    requires moves != []
    ensures Run(comet, moves) == Step(Run(comet, moves[..|moves| - 1]), moves[|moves| - 1])
  {
    hide Step;
  }

  lemma OneEventMore(events: seq<AuthTrace.Event>, more: seq<AuthTrace.Event>)
    requires |more| <= 1
    ensures AuthTrace.Run(map[], events + more)
         == if more == [] then AuthTrace.Run(map[], events)
            else AuthTrace.Apply(AuthTrace.Run(map[], events), more[0])
  {
    hide AuthTrace.Apply;
    if more == [] {
      assert events + more == events;
    } else {
      assert more == [more[0]] && (events + more)[..|events|] == events;
    }
  }

  /** The users after a joint run are those after the history that the router sees of it. */
  lemma {:induction false} UsersAgree(comet: string, moves: seq<Move>)
    ensures AuthTrace.Run(map[], Events(comet, moves)) == Run(comet, moves).view
  {
    if moves != [] {
      var init, move := moves[..|moves| - 1], moves[|moves| - 1];
      OneMoveMore(comet, moves);
      MoveSeen(Run(comet, init), move);
      hide Run, Step, EventsOf, AuthTrace.Run, AuthTrace.Apply;
      UsersAgree(comet, init);
      OneEventMore(Events(comet, init), EventsOf(Run(comet, init), move));
    }
  }

  // ---------- The comet's side ----------

  function KicksOf(calls: seq<Call>): seq<ConnMaps.Op>
  {
    if calls == [] then []
    else
      (if calls[0].Kick? then [ConnMaps.DoKick(ConnMaps.Key(calls[0].id, calls[0].plat), calls[0].token)] else [])
      + KicksOf(calls[1..])
  }

  /** What a move does to the comet's maps; a registration reaches them if the router allows it. */
  function OpsOf(s: System, move: Move): seq<ConnMaps.Op>
  {
    match move
    case LoginEvent(msg) => KicksOf(CallsOf(s, msg))
    case Registers(conn, id, plat, token) =>
      if AuthOk(s.view, id, plat, token) then [ConnMaps.DoRegister(conn, ConnMaps.Key(id, plat), token)] else []
    case Leaves(conn) => [ConnMaps.DoUnregister(conn)]
    case _ => []
  }

  function Ops(comet: string, moves: seq<Move>): seq<ConnMaps.Op>
  {
    if moves == [] then []
    else
      var init := moves[..|moves| - 1];
      Ops(comet, init) + OpsOf(Run(comet, init), moves[|moves| - 1])
  }

  function StepAll(m: ConnMaps.Maps, ops: seq<ConnMaps.Op>): ConnMaps.Maps
    decreases ops
  {
    if ops == [] then m else StepAll(ConnMaps.Step(m, ops[0]), ops[1..])
  }

  lemma {:induction false} RunInParts(ops: seq<ConnMaps.Op>, more: seq<ConnMaps.Op>)
    ensures ConnMaps.Run(ops + more) == StepAll(ConnMaps.Run(ops), more)
    decreases more
  {
    hide ConnMaps.Step;
    if more == [] {
      assert ops + more == ops;
    } else {
      assert (ops + [more[0]])[..|ops|] == ops && ops + more == ops + [more[0]] + more[1..];
      RunInParts(ops + [more[0]], more[1..]);
    }
  }

  lemma {:induction false} CallsKick(s: System, calls: seq<Call>)
    ensures CarryAll(s, calls).maps == StepAll(s.maps, KicksOf(calls))
    decreases calls
  {
    if calls != [] {
      var c := calls[0];
      CallsKick(Carry(s, c), calls[1..]);
      if c.Kick? {
        var op := ConnMaps.DoKick(ConnMaps.Key(c.id, c.plat), c.token);
        assert KicksOf(calls)[0] == op && KicksOf(calls)[1..] == KicksOf(calls[1..]);
      } else {
        assert [] + KicksOf(calls[1..]) == KicksOf(calls[1..]);
      }
    }
  }

  lemma MoveSteps(s: System, move: Move)
    ensures Step(s, move).maps == StepAll(s.maps, OpsOf(s, move))
  {
    match move {
      case LoginEvent(msg) =>
        CallsKick(s, CallsOf(s, msg));
        hide CarryAll, CallsOf, KicksOf, StepAll;
      case Registers(conn, id, plat, token) =>
        hide AuthOk;
      case Leaves(conn) =>
      case _ =>
        hide NotifyView, Saved, Drained;
    }
  }

  /** The comet's maps after a joint run are those after the operations that reach them. */
  lemma {:induction false} MapsAgree(comet: string, moves: seq<Move>)
    ensures ConnMaps.Run(Ops(comet, moves)) == Run(comet, moves).maps
  {
    if moves != [] {
      var init, move := moves[..|moves| - 1], moves[|moves| - 1];
      OneMoveMore(comet, moves);
      MoveSteps(Run(comet, init), move);
      hide Run, Step, OpsOf, ConnMaps.Run, StepAll;
      MapsAgree(comet, init);
      RunInParts(Ops(comet, init), OpsOf(Run(comet, init), move));
    }
  }
}
