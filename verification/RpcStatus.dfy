/** The one-slot status channel of a comet at the router (internal/rpc/client.go,
    router/procRpc.go): readers, pingers and registrations, interleaved step by step. */
module RpcStatus {

  /** Where a goroutine stands.
      Reader: waiting on the channel, holding the value it received, or sending 1 after a
      successful reconnection. Pinger: between heartbeats, or sending 0 after a failed one.
      Registration: about to connect, sending 1, or about to start its reader. */
  datatype Pc =
    | ReaderIdle | ReaderGot(value: int) | ReaderSending
    | Pinging | PingerSending
    | Connecting | RegistrationSending | ReaderStarting

  datatype State = State(chan: seq<int>, procs: multiset<Pc>)

  const START := State([], multiset{})

  datatype Step =
    /** A comet registers, for the first time or again on the same channel. */
    | NewRegistration
    | Connects(ok: bool)
    | Registered
    | StartsReader
    | Receives
    | StartsPing
    | Reconnects(ok: bool)
    | Reconnected
    | PingFails
    | PingReported

  /** The goroutine that takes a step. */
  function Source(step: Step): Pc
  {
    match step
    case NewRegistration => Connecting
    case Connects(_) => Connecting
    case Registered => RegistrationSending
    case StartsReader => ReaderStarting
    case Receives => ReaderIdle
    case StartsPing => ReaderGot(1)
    case Reconnects(_) => ReaderGot(0)
    case Reconnected => ReaderSending
    case PingFails => Pinging
    case PingReported => PingerSending
  }

  predicate Sends(step: Step)
  {
    step.Registered? || step.Reconnected? || step.PingReported?
  }

  /** A step needs a goroutine at the right place and, to send, a free slot. */
  predicate Enabled(step: Step, s: State)
  {
    && (step.NewRegistration? || Source(step) in s.procs)
    && (Sends(step) ==> |s.chan| < 1)
    && (step.Receives? ==> s.chan != [])
  }

  function Gone(procs: multiset<Pc>, pc: Pc): multiset<Pc>
    requires pc in procs
  {
    procs[pc := procs[pc] - 1]
  }

  function Spawned(procs: multiset<Pc>, pc: Pc): multiset<Pc>
  {
    procs[pc := procs[pc] + 1]
  }

  function Move(procs: multiset<Pc>, from: Pc, to: Pc): multiset<Pc>
    requires from in procs
  {
    Spawned(Gone(procs, from), to)
  }

  function Apply(step: Step, s: State): State
    requires Enabled(step, s)
  {
    match step
    case NewRegistration => s.(procs := Spawned(s.procs, Connecting))
    case Connects(ok) =>
      s.(procs := if ok then Move(s.procs, Connecting, RegistrationSending) else Gone(s.procs, Connecting))
    case Registered => State(s.chan + [1], Move(s.procs, RegistrationSending, ReaderStarting))
    case StartsReader => s.(procs := Move(s.procs, ReaderStarting, ReaderIdle))
    case Receives => State(s.chan[1..], Move(s.procs, ReaderIdle, ReaderGot(s.chan[0])))
    case StartsPing => s.(procs := Spawned(Move(s.procs, ReaderGot(1), ReaderIdle), Pinging))
    case Reconnects(ok) =>
      s.(procs := if ok then Move(s.procs, ReaderGot(0), ReaderSending) else Gone(s.procs, ReaderGot(0)))
    case Reconnected => State(s.chan + [1], Move(s.procs, ReaderSending, ReaderIdle))
    case PingFails => s.(procs := Move(s.procs, Pinging, PingerSending))
    case PingReported => State(s.chan + [0], Gone(s.procs, PingerSending))
  }

  /** A run: every step was enabled where it was taken. */
  predicate Runs(steps: seq<Step>)
    decreases |steps|, 0
  {
    steps == [] || (Runs(steps[..|steps| - 1]) && Enabled(steps[|steps| - 1], After(steps[..|steps| - 1])))
  }

  function After(steps: seq<Step>): State
    requires Runs(steps)
    decreases |steps|, 1
  {
    if steps == [] then START else Apply(steps[|steps| - 1], After(steps[..|steps| - 1]))
  }

  // ---------- Balance ----------

  function Pingers(s: State): nat
  {
    s.procs[Pinging] + s.procs[PingerSending]
  }

  function Held(s: State): nat
  {
    s.procs[ReaderGot(0)] + s.procs[ReaderGot(1)] + s.procs[ReaderSending]
      + s.procs[Connecting] + s.procs[RegistrationSending]
  }

  function Readers(s: State): nat
  {
    s.procs[ReaderIdle] + s.procs[ReaderGot(0)] + s.procs[ReaderGot(1)] + s.procs[ReaderSending]
  }

  function Registrations(s: State): nat
  {
    s.procs[Connecting] + s.procs[RegistrationSending] + s.procs[ReaderStarting]
  }

  /** Values in the channel and live pingers balance waiting and starting readers exactly; only
      0 and 1 travel, one at a time. */
  ghost predicate Balanced(s: State)
  {
    && |s.chan| <= 1 && (forall v :: v in s.chan ==> v == 0 || v == 1)
    && (forall v :: ReaderGot(v) in s.procs ==> v == 0 || v == 1)
    && |s.chan| + Pingers(s) == s.procs[ReaderIdle] + s.procs[ReaderStarting]
  }

  lemma Counts(procs: multiset<Pc>, pc: Pc)
    ensures forall q :: Spawned(procs, pc)[q] == procs[q] + (if q == pc then 1 else 0)
    ensures pc in procs ==> forall q :: Gone(procs, pc)[q] == procs[q] - (if q == pc then 1 else 0)
  {
  }

  lemma MoveCounts(procs: multiset<Pc>, from: Pc, to: Pc)
    requires from in procs
    ensures forall q :: Move(procs, from, to)[q]
                     == procs[q] - (if q == from then 1 else 0) + (if q == to then 1 else 0)
  {
  }

  ghost predicate CountsRight(step: Step, s: State)
    requires Enabled(step, s)
  {
    forall q :: Apply(step, s).procs[q] ==
                  s.procs[q] - (if Consumes(step) && q == Source(step) then 1 else 0) + Produced(step, s, q)
  }

  lemma ChannelStepCounts(step: Step, s: State)
    requires Enabled(step, s) && (Sends(step) || step.Receives?)
    ensures CountsRight(step, s)
  {
    hide Spawned, Gone, Move;
    match step {
      case Registered => MoveCounts(s.procs, RegistrationSending, ReaderStarting);
      case Receives => MoveCounts(s.procs, ReaderIdle, ReaderGot(s.chan[0]));
      case Reconnected => MoveCounts(s.procs, ReaderSending, ReaderIdle);
      case PingReported => Counts(s.procs, PingerSending);
    }
  }

  lemma ConnectStepCounts(step: Step, s: State)
    requires Enabled(step, s) && (step.Connects? || step.Reconnects?)
    ensures CountsRight(step, s)
  {
    hide Spawned, Gone, Move;
    match step {
      case Connects(ok) => Counts(s.procs, Connecting); MoveCounts(s.procs, Connecting, RegistrationSending);
      case Reconnects(ok) => Counts(s.procs, ReaderGot(0)); MoveCounts(s.procs, ReaderGot(0), ReaderSending);
    }
  }

  lemma StartsPingCounts(s: State)
    requires Enabled(StartsPing, s)
    ensures CountsRight(StartsPing, s)
  {
    hide Spawned, Gone, Move;
    MoveCounts(s.procs, ReaderGot(1), ReaderIdle);
    Counts(Move(s.procs, ReaderGot(1), ReaderIdle), Pinging);
  }

  lemma OtherStepCounts(step: Step, s: State)
    requires Enabled(step, s) && (step.NewRegistration? || step.StartsReader? || step.PingFails?)
    ensures CountsRight(step, s)
  {
    hide Spawned, Gone, Move;
    match step {
      case NewRegistration => Counts(s.procs, Connecting);
      case StartsReader => MoveCounts(s.procs, ReaderStarting, ReaderIdle);
      case PingFails => MoveCounts(s.procs, Pinging, PingerSending);
    }
  }

  lemma StepCounts(step: Step, s: State)
    requires Enabled(step, s)
    ensures CountsRight(step, s)
  {
    if Sends(step) || step.Receives? {
      ChannelStepCounts(step, s);
    } else if step.Connects? || step.Reconnects? {
      ConnectStepCounts(step, s);
    } else if step.StartsPing? {
      StartsPingCounts(s);
    } else {
      OtherStepCounts(step, s);
    }
  }

  predicate Consumes(step: Step)
  {
    !step.NewRegistration?
  }

  /** How many goroutines a step puts at `q`. */
  function Produced(step: Step, s: State, q: Pc): nat
    requires Enabled(step, s)
  {
    match step
    case NewRegistration => if q == Connecting then 1 else 0
    case Connects(ok) => if ok && q == RegistrationSending then 1 else 0
    case Registered => if q == ReaderStarting then 1 else 0
    case StartsReader => if q == ReaderIdle then 1 else 0
    case Receives => if q == ReaderGot(s.chan[0]) then 1 else 0
    case StartsPing => if q == ReaderIdle || q == Pinging then 1 else 0
    case Reconnects(ok) => if ok && q == ReaderSending then 1 else 0
    case Reconnected => if q == ReaderIdle then 1 else 0
    case PingFails => if q == PingerSending then 1 else 0
    case PingReported => 0
  }

  lemma OneValue(s: State)
    requires Balanced(s)
    ensures s.chan != [] ==> (s.chan[0] == 0 || s.chan[0] == 1) && s.chan == [s.chan[0]] && s.chan[1..] == []
  {
    if s.chan != [] {
      assert s.chan[0] in s.chan;
    }
  }

  lemma StepKeepsValues(step: Step, s: State)
    requires Balanced(s) && Enabled(step, s)
    ensures forall v :: ReaderGot(v) in Apply(step, s).procs ==> v == 0 || v == 1
  {
    StepCounts(step, s);
    OneValue(s);
    hide Apply;
    forall v | ReaderGot(v) in Apply(step, s).procs
      ensures v == 0 || v == 1
    {
      assert Apply(step, s).procs[ReaderGot(v)] > 0;
    }
  }

  lemma StepBalanced(step: Step, s: State)
    requires Balanced(s) && Enabled(step, s)
    ensures Balanced(Apply(step, s))
  {
    OneValue(s);
    StepKeepsValues(step, s);
    StepKeepsBalance(step, s);
    hide Spawned, Gone, Move, Pingers;
  }

  lemma StepKeepsBalance(step: Step, s: State)
    requires Enabled(step, s)
    requires |s.chan| + Pingers(s) == s.procs[ReaderIdle] + s.procs[ReaderStarting]
    ensures var t := Apply(step, s); |t.chan| + Pingers(t) == t.procs[ReaderIdle] + t.procs[ReaderStarting]
  {
    if Sends(step) || step.Receives? {
      ChannelStepKeepsBalance(step, s);
    } else if step.Connects? || step.Reconnects? {
      DialKeepsBalance(step, s);
    } else {
      StepCounts(step, s);
      hide Spawned, Gone, Move;
    }
  }

  lemma DialKeepsBalance(step: Step, s: State)
    requires Enabled(step, s) && (step.Connects? || step.Reconnects?)
    requires |s.chan| + Pingers(s) == s.procs[ReaderIdle] + s.procs[ReaderStarting]
    ensures var t := Apply(step, s); |t.chan| + Pingers(t) == t.procs[ReaderIdle] + t.procs[ReaderStarting]
  {
    StepCounts(step, s);
    hide Spawned, Gone, Move;
  }

  lemma ChannelStepKeepsBalance(step: Step, s: State)
    requires Enabled(step, s) && (Sends(step) || step.Receives?)
    requires |s.chan| + Pingers(s) == s.procs[ReaderIdle] + s.procs[ReaderStarting]
    ensures var t := Apply(step, s); |t.chan| + Pingers(t) == t.procs[ReaderIdle] + t.procs[ReaderStarting]
  {
    StepCounts(step, s);
    hide Spawned, Gone, Move;
  }

  lemma {:induction false} RunBalanced(steps: seq<Step>)
    requires Runs(steps)
    ensures Balanced(After(steps))
  {
    if steps != [] {
      RunBalanced(steps[..|steps| - 1]);
      StepBalanced(steps[|steps| - 1], After(steps[..|steps| - 1]));
    }
  }

  /** Channel values, live pingers and values held by readers or registrations never exceed
      live readers plus registrations in progress: they fall short by nothing at all. */
  lemma {:induction false} TokensMatchHolders(steps: seq<Step>)
    requires Runs(steps)
    ensures var s := After(steps); |s.chan| + Pingers(s) + Held(s) == Readers(s) + Registrations(s)
  {
    RunBalanced(steps);
  }

  // ---------- Where every step leads ----------

  /** How many copies of a value are on the channel, which holds at most one. */
  function Copies(chan: seq<int>, value: int): nat
  {
    if chan != [] && chan[0] == value then 1 else 0
  }

  /** How often each step was taken, against where the values now are: what a failed heartbeat
      sends leads to a reconnection, and what a connection sends to a new pinger. */
  ghost predicate ValuesFlow(n: multiset<Step>, s: State)
  {
    && n[PingReported] == n[Reconnects(true)] + n[Reconnects(false)] + Copies(s.chan, 0) + s.procs[ReaderGot(0)]
    && n[Registered] + n[Reconnected] == n[StartsPing] + Copies(s.chan, 1) + s.procs[ReaderGot(1)]
  }

  /** And against where the goroutines now are. */
  ghost predicate PingersFlow(n: multiset<Step>, s: State)
  {
    && n[StartsPing] == n[PingFails] + s.procs[Pinging]
    && n[PingFails] == n[PingReported] + s.procs[PingerSending]
    && n[Reconnects(true)] == n[Reconnected] + s.procs[ReaderSending]
  }

  ghost predicate RegistrationsFlow(n: multiset<Step>, s: State)
  {
    && n[NewRegistration] == n[Connects(true)] + n[Connects(false)] + s.procs[Connecting]
    && n[Connects(true)] == n[Registered] + s.procs[RegistrationSending]
    && n[Registered] == n[StartsReader] + s.procs[ReaderStarting]
  }

  /** What a step does to the number of goroutines at one place. */
  lemma CountAt(step: Step, s: State, q: Pc)
    requires Enabled(step, s)
    ensures Apply(step, s).procs[q]
         == s.procs[q] - (if Consumes(step) && q == Source(step) then 1 else 0) + Produced(step, s, q)
  {
    StepCounts(step, s);
  }

  function OneMoreOf(n: multiset<Step>, step: Step): multiset<Step>
  {
    n[step := n[step] + 1]
  }

  lemma ValuesStep(n: multiset<Step>, step: Step, s: State)
    requires Balanced(s) && Enabled(step, s) && ValuesFlow(n, s)
    ensures ValuesFlow(OneMoreOf(n, step), Apply(step, s))
  {
    OneValue(s);
    CountAt(step, s, ReaderGot(0));
    CountAt(step, s, ReaderGot(1));
    hide Spawned, Gone, Move, Balanced;
  }

  lemma PingersStep(n: multiset<Step>, step: Step, s: State)
    requires Enabled(step, s) && PingersFlow(n, s)
    ensures PingersFlow(OneMoreOf(n, step), Apply(step, s))
  {
    CountAt(step, s, Pinging);
    CountAt(step, s, PingerSending);
    CountAt(step, s, ReaderSending);
    hide Spawned, Gone, Move, Apply;
  }

  lemma RegistrationsStep(n: multiset<Step>, step: Step, s: State)
    requires Enabled(step, s) && RegistrationsFlow(n, s)
    ensures RegistrationsFlow(OneMoreOf(n, step), Apply(step, s))
  {
    CountAt(step, s, Connecting);
    CountAt(step, s, RegistrationSending);
    CountAt(step, s, ReaderStarting);
    hide Spawned, Gone, Move, Apply;
  }

  lemma OneStepMore(steps: seq<Step>)
    requires Runs(steps) && steps != []
    ensures var init, step := steps[..|steps| - 1], steps[|steps| - 1];
      && Runs(init) && Enabled(step, After(init)) && After(steps) == Apply(step, After(init))
      && multiset(steps) == OneMoreOf(multiset(init), step)
  {
    hide Apply, Enabled;
    assert steps == steps[..|steps| - 1] + [steps[|steps| - 1]];
  }

  /** Over all runs every value and every goroutine is accounted for by the steps taken. */
  lemma {:induction false} RunFlows(steps: seq<Step>)
    requires Runs(steps)
    ensures ValuesFlow(multiset(steps), After(steps))
    ensures PingersFlow(multiset(steps), After(steps)) && RegistrationsFlow(multiset(steps), After(steps))
  {
    if steps != [] {
      var init, step := steps[..|steps| - 1], steps[|steps| - 1];
      OneStepMore(steps);
      hide *;
      RunFlows(init);
      RunBalanced(init);
      ValuesStep(multiset(init), step, After(init));
      PingersStep(multiset(init), step, After(init));
      RegistrationsStep(multiset(init), step, After(init));
    }
  }

  // ---------- No deadlock ----------

  predicate SomeoneSends(s: State)
  {
    ReaderSending in s.procs || PingerSending in s.procs || RegistrationSending in s.procs
  }

  /** Whenever the slot is taken, a reader waits for it or is about to start, so those who
      want to send are never all there is. */
  lemma {:induction false} NeverAllBlocked(steps: seq<Step>)
    requires Runs(steps)
    ensures var s := After(steps);
      s.chan != [] ==> Enabled(Receives, s) || Enabled(StartsReader, s)
    ensures var s := After(steps);
      SomeoneSends(s) ==> exists step :: Enabled(step, s) && (Sends(step) || step.Receives? || step.StartsReader?)
  {
    RunBalanced(steps);
    var s := After(steps);
    if s.chan != [] {
      assert s.procs[ReaderIdle] + s.procs[ReaderStarting] >= 1;
      assert Enabled(Receives, s) || Enabled(StartsReader, s);
    } else if SomeoneSends(s) {
      assert Enabled(Reconnected, s) || Enabled(PingReported, s) || Enabled(Registered, s);
    }
  }

  /** With one reader and no registration on its way nobody ever waits to send. */
  lemma SingleReaderNeverWaits(steps: seq<Step>)
    requires Runs(steps) && Readers(After(steps)) + Registrations(After(steps)) <= 1
    ensures SomeoneSends(After(steps)) ==> After(steps).chan == []
  {
    RunBalanced(steps);
  }

  // ---------- Progress ----------

  /** Steps the goroutines take by themselves, while no heartbeat fails and nobody registers. */
  predicate Quiet(step: Step)
  {
    !step.NewRegistration? && !step.PingFails?
  }

  function InChannel(chan: seq<int>): nat
  {
    if chan == [] then 0 else if chan[0] == 0 then 5 else 2
  }

  /** How many quiet steps can still follow, at most. */
  function Work(s: State): nat
  {
    InChannel(s.chan) + s.procs[ReaderGot(1)] + 3 * s.procs[ReaderSending] + 4 * s.procs[ReaderGot(0)]
    + 6 * s.procs[PingerSending] + s.procs[ReaderStarting] + 4 * s.procs[RegistrationSending] + 5 * s.procs[Connecting]
  }

  lemma QuietStepsEnd(step: Step, s: State)
    requires Balanced(s) && Enabled(step, s) && Quiet(step)
    ensures Work(Apply(step, s)) < Work(s)
  {
    if Sends(step) || step.Receives? {
      QuietChannelStep(step, s);
    } else if step.Connects? || step.Reconnects? {
      QuietDial(step, s);
    } else {
      QuietOtherStep(step, s);
    }
  }

  lemma QuietChannelStep(step: Step, s: State)
    requires Balanced(s) && Enabled(step, s) && (Sends(step) || step.Receives?)
    ensures Work(Apply(step, s)) < Work(s)
  {
    if step.Receives? {
      QuietReceive(s);
    } else {
      QuietSend(step, s);
    }
  }

  lemma QuietReceive(s: State)
    requires Balanced(s) && Enabled(Receives, s)
    ensures Work(Apply(Receives, s)) < Work(s)
  {
    StepCounts(Receives, s);
    OneValue(s);
    hide Spawned, Gone, Move, Balanced;
  }

  lemma QuietRegistered(s: State)
    requires Balanced(s) && Enabled(Registered, s)
    ensures Work(Apply(Registered, s)) < Work(s)
  {
    StepCounts(Registered, s);
    hide Spawned, Gone, Move, Balanced;
  }

  lemma QuietReconnected(s: State)
    requires Balanced(s) && Enabled(Reconnected, s)
    ensures Work(Apply(Reconnected, s)) < Work(s)
  {
    StepCounts(Reconnected, s);
    hide Spawned, Gone, Move, Balanced;
  }

  lemma QuietReported(s: State)
    requires Balanced(s) && Enabled(PingReported, s)
    ensures Work(Apply(PingReported, s)) < Work(s)
  {
    StepCounts(PingReported, s);
    hide Spawned, Gone, Move, Balanced;
  }

  lemma QuietSend(step: Step, s: State)
    requires Balanced(s) && Enabled(step, s) && Sends(step)
    ensures Work(Apply(step, s)) < Work(s)
  {
    hide Work, Apply, Enabled, Balanced;
    match step {
      case Registered => QuietRegistered(s);
      case Reconnected => QuietReconnected(s);
      case PingReported => QuietReported(s);
    }
  }

  lemma QuietDial(step: Step, s: State)
    requires Enabled(step, s) && (step.Connects? || step.Reconnects?)
    ensures Work(Apply(step, s)) < Work(s)
  {
    StepCounts(step, s);
    hide Spawned, Gone, Move, InChannel;
  }

  lemma QuietOtherStep(step: Step, s: State)
    requires Enabled(step, s) && (step.StartsReader? || step.StartsPing?)
    ensures Work(Apply(step, s)) < Work(s)
  {
    StepCounts(step, s);
    hide Spawned, Gone, Move, InChannel;
  }

  /** When nothing quiet is left to do the channel is empty, every reader waits, there is exactly
      one pinger for each, and every heartbeat that failed has led to a reconnection. */
  lemma {:induction false} QuietMeansPaired(steps: seq<Step>)
    requires Runs(steps)
    requires forall step :: Quiet(step) ==> !Enabled(step, After(steps))
    ensures var s := After(steps);
      && s.chan == [] && Held(s) == 0 && Registrations(s) == 0 && s.procs[PingerSending] == 0
      && s.procs[Pinging] == Readers(s)
    ensures var n := multiset(steps); n[PingFails] == n[Reconnects(true)] + n[Reconnects(false)]
  {
    RunBalanced(steps);
    RunFlows(steps);
    var s := After(steps);
    NeverAllBlocked(steps);
    assert !Enabled(Receives, s) && !Enabled(StartsReader, s);
    assert !Enabled(Connects(true), s) && !Enabled(StartsPing, s) && !Enabled(Reconnects(true), s);
    assert !Enabled(Registered, s) && !Enabled(Reconnected, s) && !Enabled(PingReported, s);
  }
}
