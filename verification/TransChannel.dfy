/** The timers, exit channels and goroutines of one session's transactions
    (comet/session.go, comet/socketdo.go), interleaved step by step. */
module TransChannel {

  /** A timer that was stopped never fires; one that fired keeps its tick until it is read. */
  datatype Timer = Armed | Stopped | Fired | Drained

  /** Where the transaction's goroutine stands. */
  datatype Pc = Selecting | Saving | SelfSending | Deleting | Done

  /** `exit` counts the values in the one-slot exit channel. The last fields record history:
      saves, closings of the channel, and whether a response was put into the channel after the
      timer had been stopped in time (`early`) or had already fired (`late`). */
  datatype Trans = Trans(tid: int, timer: Timer, exit: nat, closed: bool, pc: Pc,
                         saves: nat, closes: nat, early: bool, late: bool)

  /** A response that has found its transaction: about to stop the timer, or about to send. */
  datatype Handler = Handler(t: nat, stopped: bool, done: bool)

  /** All transactions ever made, those still in the session's list, and all responses. */
  datatype State = State(all: seq<Trans>, list: seq<nat>, handlers: seq<Handler>)

  const START := State([], [], [])

  datatype Step =
    | Create(tid: int)
    | Respond(tid: int)
    | StopTimer(h: nat)
    | Post(h: nat)
    | Fire(t: nat)
    | TakeTick(t: nat)
    | Save(t: nat)
    | SelfSend(t: nat)
    | TakeExit(t: nat)
    | Delete(t: nat)
    | Destroy

  // ---------- Steps ----------

  /** Position in the list of the first transaction with this id, or the list's length. */
  function Lookup(s: State, tid: int): (i: nat)
    requires Known(s)
    ensures i <= |s.list|
    ensures i < |s.list| ==> s.all[s.list[i]].tid == tid
    ensures forall j :: 0 <= j < i ==> s.all[s.list[j]].tid != tid
  {
    Scan(s, tid, 0)
  }

  function Scan(s: State, tid: int, from: nat): (i: nat)
    requires Known(s) && from <= |s.list|
    ensures from <= i <= |s.list|
    ensures i < |s.list| ==> s.all[s.list[i]].tid == tid
    ensures forall j :: from <= j < i ==> s.all[s.list[j]].tid != tid
    decreases |s.list| - from
  {
    if from == |s.list| || s.all[s.list[from]].tid == tid then from else Scan(s, tid, from + 1)
  }

  predicate Known(s: State)
  {
    && (forall i :: 0 <= i < |s.list| ==> s.list[i] < |s.all|)
    && (forall h :: 0 <= h < |s.handlers| ==> s.handlers[h].t < |s.all|)
  }

  function Stop(timer: Timer): Timer
  {
    if timer == Armed then Stopped else timer
  }

  predicate TransStep(step: Step)
  {
    step.Fire? || step.TakeTick? || step.Save? || step.SelfSend? || step.TakeExit? || step.Delete?
  }

  /** A send waits for a free slot; on a closed channel it does not wait, it panics. */
  predicate Enabled(step: Step, s: State)
    requires Known(s)
  {
    match step
    case Create(tid) => true
    case Respond(tid) => true
    case StopTimer(h) => h < |s.handlers| && !s.handlers[h].stopped
    case Post(h) =>
      h < |s.handlers| && s.handlers[h].stopped && !s.handlers[h].done
      && (s.all[s.handlers[h].t].closed || s.all[s.handlers[h].t].exit == 0)
    case Fire(t) => t < |s.all| && s.all[t].timer == Armed
    case TakeTick(t) => t < |s.all| && s.all[t].pc == Selecting && s.all[t].timer == Fired
    case Save(t) => t < |s.all| && s.all[t].pc == Saving
    case SelfSend(t) => t < |s.all| && s.all[t].pc == SelfSending && (s.all[t].closed || s.all[t].exit == 0)
    case TakeExit(t) => t < |s.all| && s.all[t].pc == Selecting && (s.all[t].closed || s.all[t].exit > 0)
    case Delete(t) => t < |s.all| && s.all[t].pc == Deleting
    case Destroy => true
  }

  /** A response's send; on a closed channel the handler recovers from the panic. */
  function Posted(t: Trans): Trans
  {
    if t.closed then t
    else t.(exit := t.exit + 1, early := t.early || t.timer == Stopped,
             late := t.late || t.timer == Fired || t.timer == Drained)
  }

  /** What a step of the transaction's own timer or goroutine does to it, but for `Delete`. */
  function Own(step: Step, t: Trans): Trans
    requires TransStep(step)
  {
    match step
    case Fire(_) => t.(timer := Fired)
    case TakeTick(_) => t.(timer := Drained, pc := Saving)
    case Save(_) => t.(saves := t.saves + 1, pc := SelfSending)
    case SelfSend(_) => if t.closed then t.(pc := Done) else t.(exit := t.exit + 1, pc := Selecting)
    case TakeExit(_) => t.(exit := if t.exit > 0 then t.exit - 1 else 0, pc := Deleting)
    case Delete(_) => t.(pc := Done)
  }

  /** Removes the first entry with this id, stopping its timer and closing its channel. */
  function DelTrans(s: State, tid: int): State
    requires Known(s)
  {
    var i := Lookup(s, tid);
    if i == |s.list| then s
    else
      var f := s.list[i];
      s.(all := s.all[f := s.all[f].(timer := Stop(s.all[f].timer), closed := true, closes := s.all[f].closes + 1)],
         list := s.list[..i] + s.list[i + 1..])
  }

  function StopAll(s: State): (all: seq<Trans>)
    requires Known(s)
    ensures |all| == |s.all|
  {
    seq(|s.all|, i requires 0 <= i < |s.all| =>
      if i in s.list then s.all[i].(timer := Stop(s.all[i].timer)) else s.all[i])
  }

  function Apply(step: Step, s: State): (r: State)
    requires Known(s) && Enabled(step, s)
    ensures Known(r)
  {
    match step
    case Create(tid) =>
      s.(all := s.all + [Trans(tid, Armed, 0, false, Selecting, 0, 0, false, false)], list := s.list + [|s.all|])
    case Respond(tid) =>
      var i := Lookup(s, tid);
      if i == |s.list| then s else s.(handlers := s.handlers + [Handler(s.list[i], false, false)])
    case StopTimer(h) =>
      var t := s.handlers[h].t;
      s.(all := s.all[t := s.all[t].(timer := Stop(s.all[t].timer))],
         handlers := s.handlers[h := Handler(t, true, false)])
    case Post(h) =>
      var t := s.handlers[h].t;
      s.(all := s.all[t := Posted(s.all[t])], handlers := s.handlers[h := Handler(t, true, true)])
    case Destroy => s.(all := StopAll(s))
    case Delete(t) =>
      var r := DelTrans(s, s.all[t].tid);
      r.(all := r.all[t := Own(step, r.all[t])])
    case _ => s.(all := s.all[step.t := Own(step, s.all[step.t])])
  }

  /** Every step was enabled where it was taken. */
  predicate Executes(steps: seq<Step>)
    decreases |steps|, 0
  {
    steps == [] ||
    (Executes(steps[..|steps| - 1]) && Enabled(steps[|steps| - 1], After(steps[..|steps| - 1])))
  }

  function After(steps: seq<Step>): (s: State)
    requires Executes(steps)
    ensures Known(s)
    decreases |steps|, 1
  {
    if steps == [] then START else Apply(steps[|steps| - 1], After(steps[..|steps| - 1]))
  }

  /** A run whose transactions never take the id of one that is still in the list. */
  predicate Runs(steps: seq<Step>)
  {
    Executes(steps) &&
    (steps == [] ||
     var init, step := steps[..|steps| - 1], steps[|steps| - 1];
     Runs(init) && (step.Create? ==> Lookup(After(init), step.tid) == |After(init).list|))
  }

  // ---------- Invariant ----------

  predicate TransOk(t: Trans)
  {
    && t.exit <= 1 && (t.closed <==> t.pc == Done) && t.closes == (if t.pc == Done then 1 else 0)
    && (t.timer != Drained ==> t.saves == 0 && t.pc != Saving && t.pc != SelfSending)
    && (t.timer == Drained ==> t.saves == if t.pc == Saving then 0 else 1)
    && (t.timer == Armed ==> t.exit == 0 && t.pc == Selecting)
    && (t.early ==> t.timer == Stopped)
    && (t.timer == Armed || t.timer == Stopped ==> !t.late)
    && (t.timer == Fired && t.pc == Selecting ==> (t.late <==> t.exit == 1))
    && (t.pc == Saving || t.pc == SelfSending ==> (t.late <==> t.exit == 1))
    && (t.timer == Drained && t.pc == Selecting ==> t.exit == 1)
    && (t.early && t.pc == Selecting ==> t.exit == 1)
    && (t.timer == Fired && t.pc != Selecting ==> t.late)
  }

  predicate ListOk(s: State)
    requires Known(s)
  {
    && (forall i, j :: 0 <= i < j < |s.list| ==> s.all[s.list[i]].tid != s.all[s.list[j]].tid)
    && (forall t :: 0 <= t < |s.all| ==> (t in s.list <==> s.all[t].pc != Done))
  }

  predicate HandlersOk(s: State)
    requires Known(s)
  {
    forall h :: 0 <= h < |s.handlers| && s.handlers[h].stopped ==> s.all[s.handlers[h].t].timer != Armed
  }

  predicate Invariant(s: State)
  {
    && Known(s) && ListOk(s) && HandlersOk(s)
    && forall t :: 0 <= t < |s.all| ==> TransOk(s.all[t])
  }

  lemma OwnOk(step: Step, t: Trans)
    requires TransOk(t) && TransStep(step) && !step.Delete?
    requires step.Fire? ==> t.timer == Armed
    requires step.TakeTick? ==> t.pc == Selecting && t.timer == Fired
    requires step.Save? ==> t.pc == Saving
    requires step.SelfSend? ==> t.pc == SelfSending && (t.closed || t.exit == 0)
    requires step.TakeExit? ==> t.pc == Selecting && (t.closed || t.exit > 0)
    ensures TransOk(Own(step, t)) && Own(step, t).tid == t.tid && (Own(step, t).pc == Done <==> t.pc == Done)
    ensures Own(step, t).timer == Armed ==> t.timer == Armed
  {
  }

  /** Replacing one transaction by one that is as much in the list as before. */
  lemma ReplaceKeeps(s: State, r: State, t: nat)
    requires Invariant(s) && t < |s.all| && |r.all| == |s.all|
    requires r == State(s.all[t := r.all[t]], s.list, s.handlers)
    requires TransOk(r.all[t]) && r.all[t].tid == s.all[t].tid && (r.all[t].pc == Done <==> s.all[t].pc == Done)
    requires r.all[t].timer == Armed ==> s.all[t].timer == Armed
    ensures Invariant(r)
  {
    hide TransOk;
  }

  lemma OwnStepKeeps(step: Step, s: State)
    requires Invariant(s) && Enabled(step, s) && TransStep(step) && !step.Delete?
    ensures Invariant(Apply(step, s))
  {
    OwnOk(step, s.all[step.t]);
    hide TransOk, Own;
    ReplaceKeeps(s, Apply(step, s), step.t);
  }

  lemma CreateKeeps(tid: int, s: State)
    requires Invariant(s) && Lookup(s, tid) == |s.list|
    ensures Invariant(Apply(Create(tid), s))
  {
    var r := Apply(Create(tid), s);
    assert forall t :: t in r.list <==> t in s.list || t == |s.all|;
    assert TransOk(r.all[|s.all|]);
    hide TransOk;
  }

  lemma HandlerKeeps(step: Step, s: State)
    requires Invariant(s) && Enabled(step, s) && (step.StopTimer? || step.Post?)
    ensures Invariant(Apply(step, s))
  {
    var r, t := Apply(step, s), s.handlers[step.h].t;
    assert TransOk(s.all[t]);
    var m := State(r.all, s.list, s.handlers);
    ReplaceKeeps(s, m, t);
    hide TransOk;
  }

  lemma DestroyKeeps(s: State)
    requires Invariant(s)
    ensures Invariant(Apply(Destroy, s))
  {
    var r := Apply(Destroy, s);
    forall t | 0 <= t < |s.all|
      ensures TransOk(r.all[t])
    {
      assert TransOk(s.all[t]);
    }
    hide TransOk;
  }

  /** The goroutine that deletes finds its own entry. */
  lemma FindsItself(s: State, t: nat)
    requires Invariant(s) && t < |s.all| && s.all[t].pc != Done
    ensures var i := Lookup(s, s.all[t].tid); i < |s.list| && s.list[i] == t
  {
    hide TransOk;
    var k :| 0 <= k < |s.list| && s.list[k] == t;
    var i := Lookup(s, s.all[t].tid);
    assert s.all[s.list[i]].tid == s.all[s.list[k]].tid;
  }

  lemma DeletesItself(t: nat, s: State)
    requires Invariant(s) && Enabled(Delete(t), s)
    ensures var i := Lookup(s, s.all[t].tid);
      i < |s.list| && s.list[i] == t && Apply(Delete(t), s).list == s.list[..i] + s.list[i + 1..]
    ensures var r := Apply(Delete(t), s);
      r.handlers == s.handlers && r.all == s.all[t := r.all[t]] && TransOk(r.all[t])
      && r.all[t].pc == Done && r.all[t].tid == s.all[t].tid && r.all[t].timer == Stop(s.all[t].timer)
      && r.all[t].early == s.all[t].early && r.all[t].late == s.all[t].late
  {
    FindsItself(s, t);
    assert TransOk(s.all[t]);
    hide Lookup;
  }

  /** Taking the entry of a finished transaction out of the list. */
  lemma RemoveListOk(s: State, r: State, i: nat)
    requires Known(s) && ListOk(s) && Known(r) && i < |s.list| && |r.all| == |s.all|
    requires r.list == s.list[..i] + s.list[i + 1..]
    requires forall u :: 0 <= u < |s.all| ==> r.all[u].tid == s.all[u].tid
    requires forall u :: 0 <= u < |s.all| && u != s.list[i] ==> r.all[u].pc == s.all[u].pc
    requires r.all[s.list[i]].pc == Done
    ensures ListOk(r)
  {
    assert forall k :: 0 <= k < |r.list| ==> r.list[k] == s.list[if k < i then k else k + 1];
    forall u | 0 <= u < |s.all|
      ensures u in r.list <==> r.all[u].pc != Done
    {
      if u in s.list && u != s.list[i] {
        RemovedOnly(s.list, i, u);
      }
    }
  }

  lemma RemovedOnly(list: seq<nat>, i: nat, u: nat)
    requires i < |list| && u in list && u != list[i]
    ensures u in list[..i] + list[i + 1..]
  {
    var k :| 0 <= k < |list| && list[k] == u;
    assert (list[..i] + list[i + 1..])[if k < i then k else k - 1] == u;
  }

  lemma DeleteKeeps(t: nat, s: State)
    requires Invariant(s) && Enabled(Delete(t), s)
    ensures Invariant(Apply(Delete(t), s))
  {
    DeletesItself(t, s);
    hide TransOk, Apply, Lookup;
    RemoveListOk(s, Apply(Delete(t), s), Lookup(s, s.all[t].tid));
    hide ListOk;
  }

  lemma StepKeeps(step: Step, s: State)
    requires Invariant(s) && Enabled(step, s)
    requires step.Create? ==> Lookup(s, step.tid) == |s.list|
    ensures Invariant(Apply(step, s))
  {
    hide TransOk, ListOk, HandlersOk;
    match step {
      case Create(tid) => CreateKeeps(tid, s);
      case Respond(tid) => RespondKeeps(tid, s);
      case StopTimer(h) => HandlerKeeps(step, s);
      case Post(h) => HandlerKeeps(step, s);
      case Delete(t) => DeleteKeeps(t, s);
      case Destroy => DestroyKeeps(s);
      case _ => OwnStepKeeps(step, s);
    }
  }

  lemma RespondKeeps(tid: int, s: State)
    requires Invariant(s)
    ensures Invariant(Apply(Respond(tid), s))
  {
    hide TransOk;
  }

  lemma {:induction false} RunKeeps(steps: seq<Step>)
    requires Runs(steps)
    ensures Invariant(After(steps))
  {
    if steps != [] {
      RunKeeps(steps[..|steps| - 1]);
      hide Invariant, Enabled, Lookup;
      StepKeeps(steps[|steps| - 1], After(steps[..|steps| - 1]));
    }
  }

  // ---------- Results, over all runs ----------

  /** Each transaction is saved offline at most once and its channel is closed at most once,
      which is when its goroutine ends and its entry goes. */
  lemma {:induction false} AtMostOnce(steps: seq<Step>, t: nat)
    requires Runs(steps) && t < |After(steps).all|
    ensures var s := After(steps);
      && s.all[t].saves <= 1 && s.all[t].closes <= 1
      && (s.all[t].closes == 1 <==> s.all[t].pc == Done) && (s.all[t].pc == Done <==> t !in s.list)
  {
    RunKeeps(steps);
    assert TransOk(After(steps).all[t]);
  }

  /** Only its own goroutine closes a transaction's channel and removes its entry. */
  lemma ClosedOnlyByItself(steps: seq<Step>, step: Step, t: nat)
    requires Runs(steps + [step]) && t < |After(steps).all|
    requires After(steps + [step]).all[t].closes != After(steps).all[t].closes
          || (t in After(steps).list && t !in After(steps + [step]).list)
    ensures step == Delete(t)
  {
    assert (steps + [step])[..|steps|] == steps;
    RunKeeps(steps);
    if step != Delete(t) {
      OthersLeaveIt(After(steps), step, t);
    }
    hide Apply, Invariant, Enabled;
  }

  lemma OthersLeaveIt(s: State, step: Step, t: nat)
    requires Invariant(s) && Enabled(step, s) && t < |s.all| && step != Delete(t)
    ensures var r := Apply(step, s);
      && t < |r.all| && r.all[t].closes == s.all[t].closes && (t in s.list ==> t in r.list)
      && (Stuck(s.all[t]) ==> Stuck(r.all[t]))
  {
    hide TransOk, Lookup;
    if step.Delete? {
      AnotherDeletes(s, step.t, t);
      hide Apply;
    } else {
      hide Invariant;
    }
  }

  lemma AnotherDeletes(s: State, u: nat, t: nat)
    requires Invariant(s) && Enabled(Delete(u), s) && t < |s.all| && u != t
    ensures var r := Apply(Delete(u), s);
      t < |r.all| && r.all[t] == s.all[t] && (t in s.list ==> t in r.list)
  {
    DeletesItself(u, s);
    if t in s.list {
      RemovedOnly(s.list, Lookup(s, s.all[u].tid), t);
    }
    hide TransOk, Lookup, Apply;
  }

  /** A response that stops the timer in time prevents the save, whatever happens later. */
  lemma AnsweredInTimeIsNeverSaved(steps: seq<Step>, t: nat)
    requires Runs(steps) && t < |After(steps).all| && After(steps).all[t].early
    ensures After(steps).all[t].saves == 0
  {
    RunKeeps(steps);
    assert TransOk(After(steps).all[t]);
  }

  /** The goroutine waits for a slot in its own channel. */
  predicate Stuck(t: Trans)
  {
    t.pc == SelfSending && !t.closed && t.exit > 0
  }

  /** It took the tick, and a response has come before its own send. */
  predicate Doomed(t: Trans)
  {
    (t.pc == Saving || t.pc == SelfSending) && t.late
  }

  /** At its own send the goroutine blocks exactly if a late response has come. */
  lemma StuckExactly(steps: seq<Step>, t: nat)
    requires Runs(steps) && t < |After(steps).all|
    ensures var u := After(steps).all[t]; Stuck(u) <==> u.pc == SelfSending && u.late
  {
    RunKeeps(steps);
    assert TransOk(After(steps).all[t]);
  }

  /** A doomed goroutine stays doomed, and its entry stays in the list. */
  lemma DoomedStays(s: State, step: Step, t: nat)
    requires Invariant(s) && Enabled(step, s) && t < |s.all| && Doomed(s.all[t])
    ensures t < |Apply(step, s).all| && Doomed(Apply(step, s).all[t]) && t in Apply(step, s).list
  {
    assert TransOk(s.all[t]);
    if step.Delete? {
      AnotherDeletes(s, step.t, t);
      hide Apply, TransOk, Lookup;
    } else {
      hide Lookup, TransOk;
    }
  }

  lemma LastStep(steps: seq<Step>, more: seq<Step>)
    requires Runs(steps + more) && more != []
    ensures var init, step := more[..|more| - 1], more[|more| - 1];
      && Runs(steps + init) && Enabled(step, After(steps + init))
      && After(steps + more) == Apply(step, After(steps + init))
  {
    assert (steps + more)[..|steps + more| - 1] == steps + more[..|more| - 1];
  }

  lemma {:induction false} DoomedNeverEnds(steps: seq<Step>, more: seq<Step>, t: nat)
    requires Runs(steps + more) && Runs(steps) && t < |After(steps).all| && Doomed(After(steps).all[t])
    ensures t < |After(steps + more).all| && Doomed(After(steps + more).all[t])
  {
    if more == [] {
      assert steps + more == steps;
    } else {
      var init, step := more[..|more| - 1], more[|more| - 1];
      hide Invariant, Enabled, Apply, Runs, Executes, After, Doomed;
      LastStep(steps, more);
      DoomedNeverEnds(steps, init, t);
      RunKeeps(steps + init);
      DoomedStays(After(steps + init), step, t);
    }
  }

  /** Once stuck the goroutine never moves again, and its entry stays in the list. */
  lemma StuckForever(s: State, step: Step, t: nat)
    requires Invariant(s) && Enabled(step, s) && t < |s.all| && Stuck(s.all[t])
    ensures t < |Apply(step, s).all| && Stuck(Apply(step, s).all[t]) && t in Apply(step, s).list
  {
    OthersLeaveIt(s, step, t);
    hide Apply;
  }

  // ---------- Every goroutine runs to its end, or is stuck ----------

  /** The timer has fired, or a response stopped it in time and is in the channel. */
  predicate Settled(t: Trans)
  {
    t.early || t.timer == Fired || t.timer == Drained
  }

  /** How far the goroutine of a settled transaction is from its end. */
  function Rank(t: Trans): nat
  {
    match t.pc
    case Selecting => if t.timer == Fired then 5 else 2
    case Saving => 4
    case SelfSending => 3
    case Deleting => 1
    case Done => 0
  }

  /** The step the goroutine of a settled transaction takes next. */
  function NextOf(t: nat, trans: Trans): Step
  {
    match trans.pc
    case Selecting => if trans.timer == Fired then TakeTick(t) else TakeExit(t)
    case Saving => Save(t)
    case SelfSending => SelfSend(t)
    case _ => Delete(t)
  }

  /** A step of the goroutine of `t`, as opposed to anybody else's. */
  predicate OwnStep(step: Step, t: nat)
  {
    TransStep(step) && !step.Fire? && step.t == t
  }

  function OwnSteps(steps: seq<Step>, t: nat): nat
  {
    if steps == [] then 0
    else OwnSteps(steps[..|steps| - 1], t) + if OwnStep(steps[|steps| - 1], t) then 1 else 0
  }

  /** Once settled, the goroutine can go on exactly unless it is stuck. */
  lemma GoesOnUnlessStuck(s: State, t: nat)
    requires Invariant(s) && t < |s.all| && Settled(s.all[t]) && s.all[t].pc != Done
    ensures Enabled(NextOf(t, s.all[t]), s) <==> !Stuck(s.all[t])
    ensures Stuck(s.all[t]) <==> s.all[t].pc == SelfSending && s.all[t].late
  {
    assert TransOk(s.all[t]);
  }

  // ---------- Which goroutines are blocked ----------

  /** The goroutine took the tick and its own send is behind it. */
  predicate Sent(t: Trans)
  {
    t.timer == Drained && t.pc != Saving && t.pc != SelfSending
  }

  /** The step puts a response into the channel of `t` after the timer has fired and before the
      goroutine's own send. */
  predicate Crosses(s: State, step: Step, t: nat)
    requires Known(s) && Enabled(step, s)
  {
    && step.Post? && s.handlers[step.h].t == t && !s.all[t].closed
    && (s.all[t].timer == Fired || s.all[t].timer == Drained) && !Sent(s.all[t])
  }

  predicate Crossed(steps: seq<Step>, t: nat)
    requires Executes(steps)
  {
    steps != [] &&
    var init, step := steps[..|steps| - 1], steps[|steps| - 1];
    Crossed(init, t) || Crosses(After(init), step, t)
  }

  lemma CrossStep(s: State, step: Step, t: nat, crossed: bool)
    requires Invariant(s) && Enabled(step, s) && (step.Create? ==> Lookup(s, step.tid) == |s.list|)
    requires if t < |s.all| then crossed <==> s.all[t].late && !Sent(s.all[t]) else !crossed
    ensures if t < |Apply(step, s).all|
      then crossed || Crosses(s, step, t) <==> Apply(step, s).all[t].late && !Sent(Apply(step, s).all[t])
      else !crossed && !Crosses(s, step, t)
  {
    assert t < |s.all| ==> TransOk(s.all[t]);
    if step.Delete? {
      if step.t == t {
        DeletesItself(t, s);
      } else if t < |s.all| {
        AnotherDeletes(s, step.t, t);
      } else {
        DeletesItself(step.t, s);
      }
      hide Apply, TransOk, Lookup;
    } else {
      hide Lookup;
    }
  }

  /** A response has crossed the timer exactly if it is on record as late and the goroutine's own
      send has not been made. */
  lemma {:induction false} CrossedExactly(steps: seq<Step>, t: nat)
    requires Runs(steps)
    ensures if t < |After(steps).all|
      then Crossed(steps, t) <==> After(steps).all[t].late && !Sent(After(steps).all[t]) else !Crossed(steps, t)
  {
    if steps != [] {
      var init, step := steps[..|steps| - 1], steps[|steps| - 1];
      CrossedExactly(init, t);
      RunKeeps(init);
      hide Invariant, Enabled, Apply, Lookup, Crosses, Sent;
      CrossStep(After(init), step, t, Crossed(init, t));
    }
  }

  /** Progress of one step: settled stays settled, and history is kept. */
  predicate Progress(t: Trans, r: Trans, own: bool)
  {
    && Settled(r) && r.early == t.early && (t.late ==> r.late)
    && if own then Rank(r) < Rank(t) else Rank(r) == Rank(t) && r.pc == t.pc
  }

  lemma DeleteProgress(s: State, u: nat, t: nat)
    requires Invariant(s) && Enabled(Delete(u), s) && t < |s.all| && Settled(s.all[t])
    ensures t < |Apply(Delete(u), s).all| && Progress(s.all[t], Apply(Delete(u), s).all[t], u == t)
  {
    assert TransOk(s.all[t]);
    if u == t {
      DeletesItself(t, s);
    } else {
      AnotherDeletes(s, u, t);
    }
    hide TransOk, Lookup, Apply;
  }

  /** Its own steps bring a settled goroutine nearer to its end; nobody else's step moves it. */
  lemma StepProgress(s: State, step: Step, t: nat)
    requires Invariant(s) && Enabled(step, s) && t < |s.all| && Settled(s.all[t])
    ensures t < |Apply(step, s).all| && Progress(s.all[t], Apply(step, s).all[t], OwnStep(step, t))
  {
    assert TransOk(s.all[t]);
    if step.Delete? {
      DeleteProgress(s, step.t, t);
      hide TransOk, Lookup, Apply, Progress;
    } else {
      hide Lookup;
    }
  }

  lemma {:induction false} RunProgress(steps: seq<Step>, more: seq<Step>, t: nat)
    requires Runs(steps + more) && Runs(steps) && t < |After(steps).all| && Settled(After(steps).all[t])
    ensures t < |After(steps + more).all|
    ensures var a, b := After(steps).all[t], After(steps + more).all[t];
      Settled(b) && b.early == a.early && (a.late ==> b.late) && Rank(b) + OwnSteps(more, t) <= Rank(a)
  {
    if more == [] {
      assert steps + more == steps;
    } else {
      var init, step := more[..|more| - 1], more[|more| - 1];
      hide Invariant, Enabled, Apply, Runs, Executes, After;
      LastStep(steps, more);
      RunProgress(steps, init, t);
      RunKeeps(steps + init);
      StepProgress(After(steps + init), step, t);
    }
  }

  /** Once a transaction's timer has fired, or a response has stopped it in time, its goroutine
      takes at most five more steps, whatever the others do. Until it has ended it can take the
      next one exactly unless it is at its own send and a response has crossed the timer; one
      that took the tick is then blocked for ever, and never ends otherwise. When it has ended
      its entry is gone, and it has saved once if it took the tick and never if it did not. */
  lemma {:induction false} RunsToItsEnd(steps: seq<Step>, more: seq<Step>, t: nat)
    requires Runs(steps + more) && Runs(steps) && t < |After(steps).all| && Settled(After(steps).all[t])
    ensures t < |After(steps + more).all|
    ensures var a, s := After(steps).all[t], After(steps + more); var b := s.all[t];
      && OwnSteps(more, t) <= Rank(a) <= 5
      && (OwnSteps(more, t) == Rank(a) ==> b.pc == Done)
      && (b.pc != Done ==> (Enabled(NextOf(t, b), s) <==> !Stuck(b)) && OwnStep(NextOf(t, b), t))
      && (Stuck(b) <==> b.pc == SelfSending && Crossed(steps + more, t))
      && (b.timer == Drained ==> (Crossed(steps + more, t) <==> Doomed(b)))
      && (b.pc == Done ==> t !in s.list && b.saves == (if b.timer == Drained then 1 else 0))
      && (a.early ==> b.timer == Stopped)
  {
    assert Executes(steps + more);
    hide Apply, Runs, Lookup, Crossed, Enabled, Stuck, Doomed, Sent, TransOk, ListOk;
    RunProgress(steps, more, t);
    RunKeeps(steps + more);
    CrossedExactly(steps + more, t);
    StandsAt(After(steps + more), t, Crossed(steps + more, t));
  }

  lemma StandsAt(s: State, t: nat, crossed: bool)
    requires Invariant(s) && t < |s.all| && Settled(s.all[t]) && (crossed <==> s.all[t].late && !Sent(s.all[t]))
    ensures var b := s.all[t];
      && (Rank(b) == 0 ==> b.pc == Done)
      && (b.pc != Done ==> (Enabled(NextOf(t, b), s) <==> !Stuck(b)) && OwnStep(NextOf(t, b), t))
      && (Stuck(b) <==> b.pc == SelfSending && crossed)
      && (b.timer == Drained ==> (crossed <==> Doomed(b)))
      && (b.pc == Done ==> t !in s.list && b.saves == (if b.timer == Drained then 1 else 0))
      && (b.early ==> b.timer == Stopped)
  {
    assert TransOk(s.all[t]);
    if s.all[t].pc != Done {
      GoesOnUnlessStuck(s, t);
    }
    hide Apply, Lookup, Invariant;
  }

  predicate EndsAfter(steps: seq<Step>, more: seq<Step>, t: nat)
  {
    Runs(steps + more) && t < |After(steps + more).all| && After(steps + more).all[t].pc == Done
  }

  predicate Hopeful(steps: seq<Step>, t: nat)
  {
    Runs(steps) && t < |After(steps).all| && After(steps).all[t].timer == Drained && !Doomed(After(steps).all[t])
  }

  lemma OneStepNearer(steps: seq<Step>, t: nat) returns (next: Step)
    requires Hopeful(steps, t) && After(steps).all[t].pc != Done
    ensures Hopeful(steps + [next], t)
    ensures Rank(After(steps + [next]).all[t]) < Rank(After(steps).all[t])
  {
    var s := After(steps);
    next := NextOf(t, s.all[t]);
    RunKeeps(steps);
    hide Apply, Lookup, Invariant, Runs, Executes, After;
    GoesOnUnlessStuck(s, t);
    NextKeepsHope(s, t);
    ExtendRun(steps, next, Apply(next, s));
  }

  /** A goroutine that took the tick and has not been crossed can go on to its end. */
  lemma {:induction false} CanEnd(steps: seq<Step>, t: nat) returns (more: seq<Step>)
    requires Hopeful(steps, t)
    ensures EndsAfter(steps, more, t)
    decreases Rank(After(steps).all[t])
  {
    if After(steps).all[t].pc == Done {
      more := [];
      assert steps + more == steps;
    } else {
      var next := OneStepNearer(steps, t);
      hide Hopeful, EndsAfter;
      var rest := CanEnd(steps + [next], t);
      more := [next] + rest;
      EndsLater(steps, next, rest, t);
    }
  }

  lemma EndsLater(steps: seq<Step>, next: Step, rest: seq<Step>, t: nat)
    requires EndsAfter(steps + [next], rest, t)
    ensures EndsAfter(steps, [next] + rest, t)
  {
    hide Runs;
    assert steps + ([next] + rest) == steps + [next] + rest;
  }

  lemma NextKeepsHope(s: State, t: nat)
    requires Invariant(s) && t < |s.all| && s.all[t].timer == Drained && s.all[t].pc != Done && !Doomed(s.all[t])
    requires Enabled(NextOf(t, s.all[t]), s)
    ensures var r := Apply(NextOf(t, s.all[t]), s);
      t < |r.all| && r.all[t].timer == Drained && !Doomed(r.all[t]) && Rank(r.all[t]) < Rank(s.all[t])
  {
    assert TransOk(s.all[t]);
    if s.all[t].pc == Deleting {
      DeletesItself(t, s);
      hide Apply;
    }
    hide Lookup, Invariant;
  }

  /** A goroutine that took the tick can still end exactly if no response was put into its
      channel between the firing and its own send. */
  lemma EndsExactly(steps: seq<Step>, t: nat)
    requires Runs(steps) && t < |After(steps).all| && After(steps).all[t].timer == Drained
    ensures (exists more :: EndsAfter(steps, more, t)) <==> !Crossed(steps, t)
  {
    CrossedExactly(steps, t);
    hide Runs, Crossed, After;
    if Doomed(After(steps).all[t]) {
      forall more
        ensures !EndsAfter(steps, more, t)
      {
        if Runs(steps + more) {
          DoomedNeverEnds(steps, more, t);
        }
      }
    } else {
      var more := CanEnd(steps, t);
      assert EndsAfter(steps, more, t);
    }
  }

  /** A response handled after the timer fired can be both saved and answered, and then the
      goroutine and its entry stay for ever. */
  lemma LateResponseBlocks(tid: int)
    ensures var steps := [Create(tid), Respond(tid), Fire(0), StopTimer(0), TakeTick(0), Post(0), Save(0)];
      Runs(steps) && |After(steps).all| == 1 && Stuck(After(steps).all[0]) && After(steps).all[0].saves == 1
  {
    var t := Trans(tid, Armed, 0, false, Selecting, 0, 0, false, false);
    LateRun(tid, t);
    hide Runs, After;
  }

  lemma LateRun(tid: int, t: Trans)
    requires t == Trans(tid, Armed, 0, false, Selecting, 0, 0, false, false)
    ensures var steps := [Create(tid), Respond(tid), Fire(0), StopTimer(0), TakeTick(0), Post(0), Save(0)];
      Runs(steps) && After(steps) ==
        State([t.(timer := Drained, pc := SelfSending, exit := 1, late := true, saves := 1)],
          [0], [Handler(0, true, true)])
  {
    hide *;
    var h := Handler(0, false, false);
    var t1 := t.(timer := Fired);
    var t2 := t.(timer := Drained, pc := Saving);
    var t3 := t2.(exit := 1, late := true);
    FirstTwo(tid, t, h);
    LastFive(t, h);
    KnownOne(t1, h);
    KnownOne(t1, h.(stopped := true));
    KnownOne(t2, h.(stopped := true));
    var r := [Create(tid), Respond(tid)];
    ExtendFour(r, Fire(0), StopTimer(0), TakeTick(0), Post(0), State([t1], [0], [h]),
      State([t1], [0], [h.(stopped := true)]), State([t2], [0], [h.(stopped := true)]),
      State([t3], [0], [Handler(0, true, true)]));
    var r4 := r + [Fire(0), StopTimer(0), TakeTick(0), Post(0)];
    ExtendRun(r4, Save(0), State([t3.(saves := 1, pc := SelfSending)], [0], [Handler(0, true, true)]));
    assert r4 + [Save(0)] == [Create(tid), Respond(tid), Fire(0), StopTimer(0), TakeTick(0), Post(0), Save(0)];
  }

  lemma KnownOne(t: Trans, h: Handler)
    requires h.t == 0
    ensures Known(State([t], [0], [h]))
  {
  }

  lemma ExtendFour(r: seq<Step>, a: Step, b: Step, c: Step, d: Step, s1: State, s2: State, s3: State, s4: State)
    requires Runs(r) && Takes(After(r), a, s1) && Known(s1) && Takes(s1, b, s2) && Known(s2) && Takes(s2, c, s3)
    requires Known(s3) && Takes(s3, d, s4)
    requires !a.Create? && !b.Create? && !c.Create? && !d.Create?
    ensures Runs(r + [a, b, c, d]) && After(r + [a, b, c, d]) == s4
  {
    hide *;
    ExtendRun(r, a, s1);
    ExtendRun(r + [a], b, s2);
    ExtendRun(r + [a] + [b], c, s3);
    ExtendRun(r + [a] + [b] + [c], d, s4);
    assert r + [a] + [b] + [c] + [d] == r + [a, b, c, d];
  }

  lemma FirstTwo(tid: int, t: Trans, h: Handler)
    requires t == Trans(tid, Armed, 0, false, Selecting, 0, 0, false, false) && h == Handler(0, false, false)
    ensures Runs([Create(tid), Respond(tid)]) && After([Create(tid), Respond(tid)]) == State([t], [0], [h])
  {
    hide *;
    StartsEmpty();
    CreateFirst(tid, t);
    ExtendRun([], Create(tid), State([t], [0], []));
    assert [] + [Create(tid)] == [Create(tid)];
    RespondFirst(tid, t, h);
    ExtendRun([Create(tid)], Respond(tid), State([t], [0], [h]));
    assert [Create(tid)] + [Respond(tid)] == [Create(tid), Respond(tid)];
  }

  lemma StartsEmpty()
    ensures Runs([]) && Executes([]) && After([]) == START && Known(START)
  {
  }

  lemma CreateFirst(tid: int, t: Trans)
    requires t == Trans(tid, Armed, 0, false, Selecting, 0, 0, false, false)
    ensures Known(START) && Takes(START, Create(tid), State([t], [0], [])) && Lookup(START, tid) == |START.list|
  {
  }

  lemma RespondFirst(tid: int, t: Trans, h: Handler)
    requires t == Trans(tid, Armed, 0, false, Selecting, 0, 0, false, false) && h == Handler(0, false, false)
    ensures Known(State([t], [0], [])) && Takes(State([t], [0], []), Respond(tid), State([t], [0], [h]))
  {
    assert Lookup(State([t], [0], []), tid) == 0;
  }

  predicate Takes(s: State, step: Step, r: State)
    requires Known(s)
  {
    Enabled(step, s) && Apply(step, s) == r
  }

  lemma LastFive(t: Trans, h: Handler)
    requires t == Trans(t.tid, Armed, 0, false, Selecting, 0, 0, false, false) && h == Handler(0, false, false)
    ensures var t1 := t.(timer := Fired);
      var t2 := t.(timer := Drained, pc := Saving);
      var t3 := t2.(exit := 1, late := true);
      var h1, h2 := Handler(0, true, false), Handler(0, true, true);
      && Takes(State([t], [0], [h]), Fire(0), State([t1], [0], [h]))
      && Takes(State([t1], [0], [h]), StopTimer(0), State([t1], [0], [h1]))
      && Takes(State([t1], [0], [h1]), TakeTick(0), State([t2], [0], [h1]))
      && Takes(State([t2], [0], [h1]), Post(0), State([t3], [0], [h2]))
      && Takes(State([t3], [0], [h2]), Save(0), State([t3.(saves := 1, pc := SelfSending)], [0], [h2]))
  {
  }

  lemma ExtendRun(steps: seq<Step>, step: Step, r: State)
    requires Runs(steps) && Takes(After(steps), step, r)
    requires step.Create? ==> Lookup(After(steps), step.tid) == |After(steps).list|
    ensures Runs(steps + [step]) && After(steps + [step]) == r
  {
    assert (steps + [step])[..|steps|] == steps;
  }

  // ---------- Why ids must be distinct ----------

  predicate NoCreate(steps: seq<Step>)
  {
    forall i :: 0 <= i < |steps| ==> !steps[i].Create?
  }

  /** What the timer and the goroutine of transaction `t` do when it times out. */
  function OwnCourse(t: nat): seq<Step>
  {
    [Fire(t), TakeTick(t), Save(t), SelfSend(t), TakeExit(t), Delete(t)]
  }

  /** A transaction under an id that is still listed, whose timer and goroutine have come to `u`. */
  function Twin(s: State, u: Trans): State
  {
    s.(all := s.all + [u], list := s.list + [|s.all|])
  }

  /** The state after the twin's goroutine has run to its end: it has closed the channel of the
      first transaction with its id and removed that one's entry; its own entry stays. */
  function TwinEnded(s: State, tid: int): State
    requires Known(s) && Lookup(s, tid) < |s.list|
  {
    var i := Lookup(s, tid);
    var f := s.all[s.list[i]];
    State(s.all[s.list[i] := f.(timer := Stop(f.timer), closed := true, closes := f.closes + 1)]
          + [Trans(tid, Drained, 0, false, Done, 1, 0, false, false)],
      s.list[..i] + s.list[i + 1..] + [|s.all|], s.handlers)
  }

  lemma TwinKnown(s: State, u: Trans)
    requires Known(s)
    ensures Known(Twin(s, u))
  {
  }

  lemma TwinSteps(s: State, step: Step, u: Trans)
    requires Known(s) && TransStep(step) && !step.Delete? && step.t == |s.all|
    requires step.Fire? ==> u.timer == Armed
    requires step.TakeTick? ==> u.pc == Selecting && u.timer == Fired
    requires step.Save? ==> u.pc == Saving
    requires step.SelfSend? ==> u.pc == SelfSending && u.exit == 0
    requires step.TakeExit? ==> u.pc == Selecting && u.exit > 0
    ensures Known(Twin(s, u)) && Takes(Twin(s, u), step, Twin(s, Own(step, u)))
  {
    hide Own;
    TwinKnown(s, u);
    assert (s.all + [u])[|s.all| := Own(step, u)] == s.all + [Own(step, u)];
  }

  lemma {:induction false} TwinScan(s: State, u: Trans, from: nat)
    requires Known(s) && from <= |s.list| && Scan(s, u.tid, from) < |s.list|
    ensures Known(Twin(s, u)) && Scan(Twin(s, u), u.tid, from) == Scan(s, u.tid, from)
    decreases |s.list| - from
  {
    TwinKnown(s, u);
    if s.all[s.list[from]].tid != u.tid {
      TwinScan(s, u, from + 1);
    }
  }

  lemma TwinDeletes(s: State, u: Trans)
    requires Known(s) && Lookup(s, u.tid) < |s.list|
    requires u == Trans(u.tid, Drained, 0, false, Deleting, 1, 0, false, false)
    ensures Known(Twin(s, u)) && Takes(Twin(s, u), Delete(|s.all|), TwinEnded(s, u.tid))
  {
    TwinScan(s, u, 0);
    var i, t, w := Lookup(s, u.tid), |s.all|, Twin(s, u);
    assert Lookup(w, u.tid) == i;
    hide Lookup, Scan;
    assert w.list[..i] + w.list[i + 1..] == s.list[..i] + s.list[i + 1..] + [t];
    assert Apply(Delete(t), w).all == TwinEnded(s, u.tid).all;
  }

  lemma TwinStarts(steps: seq<Step>, tid: int)
    requires Executes(steps)
    ensures Executes(steps + [Create(tid)])
    ensures After(steps + [Create(tid)])
         == Twin(After(steps), Trans(tid, Armed, 0, false, Selecting, 0, 0, false, false))
  {
    ExtendExecution(steps, Create(tid), Apply(Create(tid), After(steps)));
  }

  /** A new transaction `t`, and its steps up to its goroutine's last. */
  function UpToDelete(steps: seq<Step>, tid: int, t: nat): seq<Step>
  {
    steps + [Create(tid)] + [Fire(t)] + [TakeTick(t)] + [Save(t)] + [SelfSend(t)] + [TakeExit(t)]
  }

  lemma UpToDeleteIs(steps: seq<Step>, tid: int, t: nat)
    ensures |OwnCourse(t)| == 6 && NoCreate(OwnCourse(t)[..5] + [Delete(t)])
    ensures UpToDelete(steps, tid, t) == steps + [Create(tid)] + OwnCourse(t)[..5]
    ensures UpToDelete(steps, tid, t) + [Delete(t)] == steps + [Create(tid)] + OwnCourse(t)
  {
  }

  lemma TwinCourse(steps: seq<Step>, tid: int)
    requires Executes(steps) && Lookup(After(steps), tid) < |After(steps).list|
    ensures var run := UpToDelete(steps, tid, |After(steps).all|);
      Executes(run)
      && After(run) == Twin(After(steps), Trans(tid, Drained, 0, false, Deleting, 1, 0, false, false))
  {
    hide Executes, After, Lookup, Twin, Enabled, Apply;
    TwinStarts(steps, tid);
    var s, t, run := After(steps), |After(steps).all|, steps + [Create(tid)];
    var u := Trans(tid, Armed, 0, false, Selecting, 0, 0, false, false);
    run, u := TwinTakes(run, s, Fire(t), u);
    run, u := TwinTakes(run, s, TakeTick(t), u);
    run, u := TwinTakes(run, s, Save(t), u);
    run, u := TwinTakes(run, s, SelfSend(t), u);
    run, u := TwinTakes(run, s, TakeExit(t), u);
  }

  lemma TwinTakes(run: seq<Step>, s: State, step: Step, u: Trans) returns (more: seq<Step>, w: Trans)
    requires Known(s) && Executes(run) && After(run) == Twin(s, u)
    requires TransStep(step) && !step.Delete? && step.t == |s.all|
    requires step.Fire? ==> u.timer == Armed
    requires step.TakeTick? ==> u.pc == Selecting && u.timer == Fired
    requires step.Save? ==> u.pc == Saving
    requires step.SelfSend? ==> u.pc == SelfSending && u.exit == 0 && !u.closed
    requires step.TakeExit? ==> u.pc == Selecting && u.exit > 0
    ensures more == run + [step] && w == Own(step, u) && Executes(more) && After(more) == Twin(s, w)
  {
    more, w := run + [step], Own(step, u);
    TwinSteps(s, step, u);
    hide *;
    ExtendExecution(run, step, Twin(s, w));
  }

  /** After any history: if a new transaction takes an id that is still listed, its own steps
      close the channel of the first transaction with that id and leave its own entry listed. */
  lemma RepeatedIdClosesAnother(steps: seq<Step>, tid: int)
    requires Executes(steps) && Lookup(After(steps), tid) < |After(steps).list|
    ensures var run := steps + [Create(tid)] + OwnCourse(|After(steps).all|);
      Executes(run) && After(run) == TwinEnded(After(steps), tid)
  {
    var t := |After(steps).all|;
    TwinCourse(steps, tid);
    TwinDeletes(After(steps), Trans(tid, Drained, 0, false, Deleting, 1, 0, false, false));
    UpToDeleteIs(steps, tid, t);
    hide Executes, After, Lookup, Takes, UpToDelete, OwnCourse, Twin;
    ExtendExecution(UpToDelete(steps, tid, t), Delete(t), TwinEnded(After(steps), tid));
  }

  /** The last step of an execution closes a channel that is not its own goroutine's. */
  predicate ClosesAnother(steps: seq<Step>, step: Step, t: nat)
  {
    && Executes(steps) && Executes(steps + [step]) && t < |After(steps).all| <= |After(steps + [step]).all|
    && After(steps + [step]).all[t].closes != After(steps).all[t].closes && step != Delete(t)
  }

  lemma {:induction false} RunsOn(steps: seq<Step>, more: seq<Step>)
    requires Runs(steps) && NoCreate(more) && Executes(steps + more)
    ensures Runs(steps + more)
  {
    if more == [] {
      assert steps + more == steps;
    } else {
      assert (steps + more)[..|steps + more| - 1] == steps + more[..|more| - 1];
      RunsOn(steps, more[..|more| - 1]);
    }
  }

  /** A new transaction is harmless exactly if its id is not listed: whatever follows it, short of
      further new ones, no goroutine closes another transaction's channel. */
  lemma HarmlessExactly(steps: seq<Step>, tid: int)
    requires Runs(steps)
    ensures Lookup(After(steps), tid) == |After(steps).list|
      <==> forall more, step, t :: NoCreate(more + [step]) ==> !ClosesAnother(steps + [Create(tid)] + more, step, t)
  {
    if Lookup(After(steps), tid) == |After(steps).list| {
      forall more, step, t | NoCreate(more + [step])
        ensures !ClosesAnother(steps + [Create(tid)] + more, step, t)
      {
        FreshIsHarmless(steps, tid, more, step, t);
      }
    } else {
      var more, step, t := TwinHarms(steps, tid);
    }
  }

  lemma FreshIsHarmless(steps: seq<Step>, tid: int, more: seq<Step>, step: Step, t: nat)
    requires Runs(steps) && Lookup(After(steps), tid) == |After(steps).list| && NoCreate(more + [step])
    ensures !ClosesAnother(steps + [Create(tid)] + more, step, t)
  {
    var run := steps + [Create(tid)];
    ExtendRun(steps, Create(tid), Apply(Create(tid), After(steps)));
    hide Runs, Executes, After, Lookup;
    if ClosesAnother(run + more, step, t) {
      assert run + more + [step] == run + (more + [step]);
      RunsOn(run, more + [step]);
      ClosedOnlyByItself(run + more, step, t);
    }
  }

  lemma TwinHarms(steps: seq<Step>, tid: int) returns (more: seq<Step>, step: Step, t: nat)
    requires Runs(steps) && Lookup(After(steps), tid) < |After(steps).list|
    ensures NoCreate(more + [step]) && ClosesAnother(steps + [Create(tid)] + more, step, t)
  {
    var s, n := After(steps), |After(steps).all|;
    UpToDeleteIs(steps, tid, n);
    more, step := OwnCourse(n)[..5], Delete(n);
    t := s.list[Lookup(s, tid)];
    RepeatedIdClosesAnother(steps, tid);
    TwinCourse(steps, tid);
    TwinDiffers(s, tid);
    hide Lookup, Runs, Executes, After, UpToDelete, Twin, TwinEnded, NoCreate, OwnCourse;
  }

  lemma TwinDiffers(s: State, tid: int)
    requires Known(s) && Lookup(s, tid) < |s.list|
    ensures var f, w := s.list[Lookup(s, tid)], Twin(s, Trans(tid, Drained, 0, false, Deleting, 1, 0, false, false));
      && f < |s.all| && f < |w.all| <= |TwinEnded(s, tid).all| && w.all[f].closes != TwinEnded(s, tid).all[f].closes
  {
    hide Lookup;
  }

  lemma ExtendExecution(steps: seq<Step>, step: Step, r: State)
    requires Executes(steps) && Takes(After(steps), step, r)
    ensures Executes(steps + [step]) && After(steps + [step]) == r
  {
    hide Apply, Enabled, Known;
    assert (steps + [step])[..|steps|] == steps;
  }

  // ---------- A session is destroyed ----------

  /** Who has taken the tick, or saved, has a timer that is spent. */
  predicate TickSpent(t: Trans)
  {
    t.pc == Saving || t.pc == SelfSending || t.saves > 0 ==> t.timer == Drained
  }

  predicate AllSpent(s: State)
  {
    forall t :: 0 <= t < |s.all| ==> TickSpent(s.all[t])
  }

  lemma StepSpends(s: State, step: Step)
    requires Known(s) && Enabled(step, s) && AllSpent(s)
    ensures AllSpent(Apply(step, s))
  {
    hide Lookup;
  }

  lemma {:induction false} RunSpends(steps: seq<Step>)
    requires Executes(steps)
    ensures AllSpent(After(steps))
  {
    if steps != [] {
      RunSpends(steps[..|steps| - 1]);
      hide AllSpent, Apply, Enabled;
      StepSpends(After(steps[..|steps| - 1]), steps[|steps| - 1]);
    }
  }

  /** A timer that was stopped in time: no step starts it again, and the goroutine cannot get to
      its save. */
  predicate Silenced(s: State, t: nat)
  {
    t < |s.all| && s.all[t].timer == Stopped && TickSpent(s.all[t])
  }

  lemma SilenceStays(s: State, step: Step, t: nat)
    requires Known(s) && Enabled(step, s) && Silenced(s, t)
    ensures Silenced(Apply(step, s), t)
  {
    hide Lookup;
  }

  /** A pending transaction whose timer runs when its session is destroyed never saves its
      message, whatever follows. */
  lemma {:induction false} DestroyedNeverSaves(steps: seq<Step>, more: seq<Step>, t: nat)
    requires Executes(steps) && Executes(steps + [Destroy] + more)
    requires t in After(steps).list && After(steps).all[t].timer == Armed
    ensures var s := After(steps + [Destroy] + more);
      t < |s.all| && s.all[t].timer == Stopped && s.all[t].saves == 0
  {
    DestroySilences(steps, more, t);
  }

  lemma {:induction false} DestroySilences(steps: seq<Step>, more: seq<Step>, t: nat)
    requires Executes(steps) && Executes(steps + [Destroy] + more)
    requires t in After(steps).list && After(steps).all[t].timer == Armed
    ensures Silenced(After(steps + [Destroy] + more), t)
  {
    var all := steps + [Destroy] + more;
    if more == [] {
      assert all[..|all| - 1] == steps && all[|all| - 1] == Destroy;
      RunSpends(steps);
      var s := After(steps);
      assert After(all) == Apply(Destroy, s);
      assert TickSpent(s.all[t]);
    } else {
      var init := more[..|more| - 1];
      assert all[..|all| - 1] == steps + [Destroy] + init && all[|all| - 1] == more[|more| - 1];
      DestroySilences(steps, init, t);
      SilenceStays(After(steps + [Destroy] + init), more[|more| - 1], t);
      hide Silenced, Apply, Enabled;
    }
  }
}
