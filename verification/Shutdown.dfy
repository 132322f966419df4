/**
 The two-phase shutdown of the scheduler as a transition system: the heap loop that sends fires
 over a bounded channel, the executor that selects between a wake-up and the channel, and the
 controller that stops one after the other. A notify wakes only an executor that is parked.
 */
module Shutdown {
  import opened Wrappers

  type Fire = string

  const FIRE_CHANNEL_CAP: nat := 256

  /** Where the executor is: about to select, parked in the select, handling a fire, draining, or gone. */
  datatype ExecPc = Top | Parked(notified: bool) | Processing(fire: Fire, draining: bool) | Draining | Exited

  /** What the controller has done. */
  datatype CtlPc = Running | Commanded | HeapJoined | Notified | Joined

  /** `sent` is every fire the heap loop sent, `lost` those sent when nobody received any more. */
  datatype Sys = Sys(
    heapAlive: bool,
    channel: seq<Fire>,
    exec: ExecPc,
    ctl: CtlPc,
    sent: seq<Fire>,
    processed: seq<Fire>,
    lost: seq<Fire>)

  const BOOT: Sys := Sys(true, [], Top, Running, [], [], [])

  datatype Step = Send(f: Fire) | Shutdown | HeapExit | JoinHeap | Notify | JoinExecutor | RequestStop | Exec

  /** A full channel blocks the sender; a sender whose receiver is gone loses the fire. */
  function DoSend(s: Sys, f: Fire): Sys {
    if !s.heapAlive then s
    else if s.exec.Exited? then s.(sent := s.sent + [f], lost := s.lost + [f])
    else if |s.channel| >= FIRE_CHANNEL_CAP then s
    else s.(sent := s.sent + [f], channel := s.channel + [f])
  }

  function Wake(e: ExecPc): ExecPc {
    if e.Parked? then Parked(true) else e
  }

  function Take(s: Sys, draining: bool): Sys
    requires s.channel != []
  {
    s.(channel := s.channel[1..], exec := Processing(s.channel[0], draining))
  }

  /** One step of the executor. A wake-up wins over a ready channel; a timer brings a parked executor back to the top. */
  function DoExec(s: Sys): Sys {
    match s.exec
    case Top =>
      if s.channel != [] then Take(s, false)
      else if !s.heapAlive then s.(exec := Exited)
      else s.(exec := Parked(false))
    case Parked(notified) =>
      if notified then s.(exec := Draining)
      else if s.channel != [] then Take(s, false)
      else if !s.heapAlive then s.(exec := Exited)
      else s.(exec := Top)
    case Processing(f, draining) => s.(processed := s.processed + [f], exec := if draining then Draining else Top)
    case Draining => if s.channel != [] then Take(s, true) else s.(exec := Exited)
    case Exited => s
  }

  function Next(s: Sys, step: Step): Sys {
    match step
    case Send(f) => DoSend(s, f)
    case Shutdown => if s.ctl.Running? then s.(ctl := Commanded) else s
    case HeapExit => if !s.ctl.Running? then s.(heapAlive := false) else s
    case JoinHeap => if s.ctl.Commanded? && !s.heapAlive then s.(ctl := HeapJoined) else s
    case Notify => if s.ctl.HeapJoined? then s.(ctl := CtlPc.Notified, exec := Wake(s.exec)) else s
    case JoinExecutor => if s.ctl.Notified? && s.exec.Exited? then s.(ctl := Joined) else s
    case RequestStop => s.(exec := Wake(s.exec))
    case Exec => DoExec(s)
  }

  function Run(s: Sys, steps: seq<Step>): Sys {
    if steps == [] then s else Next(Run(s, steps[..|steps| - 1]), steps[|steps| - 1])
  }

  function InHand(e: ExecPc): seq<Fire> {
    if e.Processing? then [e.fire] else []
  }

  /** Nothing is dropped or reordered: what was sent is what was handled, is in hand, waits, or was lost. */
  predicate Conserved(s: Sys) {
    && s.sent == s.processed + InHand(s.exec) + s.channel + s.lost
    && (s.lost != [] ==> s.exec.Exited?)
    && (s.exec.Exited? ==> s.channel == [])
  }

  lemma StepConserves(s: Sys, step: Step)
    requires Conserved(s)
    ensures Conserved(Next(s, step))
  {
  }

  predicate Stopping(e: ExecPc) {
    e.Draining? || e.Exited? || (e.Processing? && e.draining) || (e.Parked? && e.notified)
  }

  /** While the heap loop lives the executor has not been told to stop. */
  predicate Orderly(s: Sys) {
    && (s.heapAlive ==> !Stopping(s.exec) && s.lost == [])
    && (s.heapAlive ==> s.ctl.Running? || s.ctl.Commanded?)
  }

  lemma StepKeepsOrderly(s: Sys, step: Step)
    requires Orderly(s) && Conserved(s) && !step.RequestStop?
    ensures Orderly(Next(s, step))
    ensures s.lost == [] ==> Next(s, step).lost == []
  {
  }

  predicate NoStopRequest(steps: seq<Step>) {
    forall k :: 0 <= k < |steps| ==> !steps[k].RequestStop?
  }

  lemma {:induction false} RunKeepsOrderly(s: Sys, steps: seq<Step>)
    requires Orderly(s) && Conserved(s) && s.lost == [] && NoStopRequest(steps)
    ensures Orderly(Run(s, steps)) && Conserved(Run(s, steps)) && Run(s, steps).lost == []
  {
    hide Orderly, Conserved, Next;
    if |steps| == 0 {
    } else {
      RunKeepsOrderly(s, steps[..|steps| - 1]);
      StepConserves(Run(s, steps[..|steps| - 1]), steps[|steps| - 1]);
      StepKeepsOrderly(Run(s, steps[..|steps| - 1]), steps[|steps| - 1]);
    }
  }

  /**
   Shutdown loses no fire: when the controller is the only source of the executor's signal, every
   fire sent has been processed, in order, once the executor is joined, wherever the notify caught it.
   */
  lemma ShutdownLosesNoFire(steps: seq<Step>)
    requires NoStopRequest(steps)
    ensures Run(BOOT, steps).lost == []
    ensures Run(BOOT, steps).exec.Exited? ==> Run(BOOT, steps).processed == Run(BOOT, steps).sent
    ensures Run(BOOT, steps).exec.Exited? ==> !Run(BOOT, steps).heapAlive
  {
    hide Run;
    RunKeepsOrderly(BOOT, steps);
  }

  // Termination.

  /** Bounds the executor's remaining steps once the channel is closed. */
  function Measure(s: Sys): nat {
    4 * |s.channel|
    + match s.exec
      case Top => 2
      case Parked(_) => 2
      case Processing(_, _) => 3
      case Draining => 1
      case Exited => 0
  }

  lemma MeasureFalls(s: Sys, step: Step)
    requires !s.heapAlive
    ensures !Next(s, step).heapAlive
    ensures Measure(Next(s, step)) <= Measure(s)
    ensures step.Exec? && !s.exec.Exited? ==> Measure(Next(s, step)) < Measure(s)
    ensures s.exec.Exited? ==> Next(s, step).exec.Exited?
  {
  }

  function ExecSteps(steps: seq<Step>): nat {
    if steps == [] then 0 else ExecSteps(steps[..|steps| - 1]) + if steps[|steps| - 1].Exec? then 1 else 0
  }

  /** Once the heap loop is gone the executor exits within as many of its own steps as the measure, notified or not. */
  lemma {:induction false} ExecutorExits(s: Sys, steps: seq<Step>)
    requires !s.heapAlive
    ensures !Run(s, steps).heapAlive
    ensures Run(s, steps).exec.Exited? || Measure(Run(s, steps)) + ExecSteps(steps) <= Measure(s)
    ensures ExecSteps(steps) >= Measure(s) ==> Run(s, steps).exec.Exited?
  {
    hide Next;
    if |steps| > 0 {
      var front := steps[..|steps| - 1];
      ExecutorExits(s, front);
      MeasureFalls(Run(s, front), steps[|steps| - 1]);
    }
  }

  /** The channel holds at most its capacity, so the join takes at most 1027 executor steps. */
  lemma {:induction false} MeasureBound(steps: seq<Step>)
    ensures |Run(BOOT, steps).channel| <= FIRE_CHANNEL_CAP && Measure(Run(BOOT, steps)) <= 1027
  {
    if |steps| > 0 {
      MeasureBound(steps[..|steps| - 1]);
    }
  }

  // The second source of the signal.

  /** Whatever follows without another request, no fire is lost. */
  ghost predicate Safe(s: Sys) {
    forall steps :: NoStopRequest(steps) ==> Run(s, steps).lost == []
  }

  lemma {:induction false} RunAppend(s: Sys, a: seq<Step>, b: seq<Step>)
    ensures Run(s, a + b) == Run(Run(s, a), b)
    decreases |b|
  {
    hide Next;
    if |b| == 0 {
      assert a + b == a;
    } else {
      var n := |b| - 1;
      RunAppend(s, a, b[..n]);
      assert (a + b)[..|a + b| - 1] == a + b[..n];
    }
  }

  /** `n` steps of the executor. */
  function ExecTimes(n: nat): seq<Step> {
    if n == 0 then [] else [Exec] + ExecTimes(n - 1)
  }

  lemma RunOne(s: Sys, step: Step)
    ensures Run(s, [step]) == Next(s, step)
  {
    assert [step][..0] == [];
    assert Run(s, []) == s;
    hide Next;
  }

  lemma {:induction false} ExecTimesIsExec(n: nat)
    ensures NoStopRequest(ExecTimes(n))
  {
    if n > 0 {
      ExecTimesIsExec(n - 1);
    }
  }

  /** Draining handles all that is buffered, in order, at two steps a fire. */
  lemma {:induction false} DrainHandlesAll(s: Sys)
    requires s.exec.Draining?
    ensures Run(s, ExecTimes(2 * |s.channel|)) == s.(channel := [], processed := s.processed + s.channel)
    decreases |s.channel|
  {
    var n := |s.channel|;
    if n == 0 {
      assert s.processed + s.channel == s.processed;
    } else {
      var t := Next(Next(s, Exec), Exec);
      assert t == s.(channel := s.channel[1..], processed := s.processed + [s.channel[0]]);
      DrainHandlesAll(t);
      assert t.processed + t.channel == s.processed + s.channel;
      assert ExecTimes(2 * n) == [Exec] + ([Exec] + ExecTimes(2 * (n - 1)));
      RunOne(s, Exec);
      RunOne(Next(s, Exec), Exec);
      RunAppend(s, [Exec], [Exec] + ExecTimes(2 * (n - 1)));
      RunAppend(Next(s, Exec), [Exec], ExecTimes(2 * (n - 1)));
      hide Run, Next, ExecTimes;
    }
  }

  /** A stopping executor gets to its end with what it has, while the heap loop still lives. */
  lemma StoppingExits(s: Sys) returns (steps: seq<Step>)
    requires Stopping(s.exec)
    ensures NoStopRequest(steps)
    ensures var t := Run(s, steps); t.exec.Exited? && t.heapAlive == s.heapAlive && t.lost == s.lost
  {
    hide Run;
    if s.exec.Exited? {
      steps := [];
      NothingRun(s);
    } else if s.exec.Draining? {
      steps := DrainingExits(s);
    } else {
      var rest := DrainingExits(Next(s, Exec));
      RunOne(s, Exec);
      RunAppend(s, [Exec], rest);
      steps := [Exec] + rest;
    }
  }

  lemma NothingRun(s: Sys)
    ensures Run(s, []) == s
  {
  }

  lemma DrainingExits(s: Sys) returns (steps: seq<Step>)
    requires s.exec.Draining?
    ensures NoStopRequest(steps)
    ensures var t := Run(s, steps); t.exec.Exited? && t.heapAlive == s.heapAlive && t.lost == s.lost
  {
    var drain := ExecTimes(2 * |s.channel|);
    DrainHandlesAll(s);
    ExecTimesIsExec(2 * |s.channel|);
    RunOne(Run(s, drain), Exec);
    RunAppend(s, drain, [Exec]);
    hide Run, ExecTimes;
    steps := drain + [Exec];
  }

  /** Stopped under a live heap loop, the executor loses a fire in some continuation. */
  lemma StoppedWhileAliveIsUnsafe(s: Sys)
    requires Stopping(s.exec) && s.heapAlive
    ensures !Safe(s)
  {
    hide Run;
    var steps := StoppingExits(s);
    RunOne(Run(s, steps), Send(""));
    RunAppend(s, steps, [Send("")]);
    assert NoStopRequest(steps + [Send("")]);
  }

  /** A stop request is harmless exactly when the executor is not parked or the heap loop is already gone. */
  lemma RequestStopIsSafeIff(steps: seq<Step>)
    requires NoStopRequest(steps)
    ensures var s := Run(BOOT, steps);
            Safe(Next(s, RequestStop)) <==> !(s.heapAlive && s.exec.Parked?)
  {
    SafeIff(steps + [RequestStop]);
    RunKeepsOrderly(BOOT, steps);
    assert (steps + [RequestStop])[..|steps|] == steps;
    NeverStoppedEarly(steps);
    hide Safe, StoppedEarly;
  }

  /** Some stop request of the run met a parked executor under a live heap loop. */
  predicate StoppedEarly(steps: seq<Step>) {
    |steps| > 0
    && (StoppedEarly(steps[..|steps| - 1])
        || (steps[|steps| - 1].RequestStop? && Run(BOOT, steps[..|steps| - 1]).heapAlive
            && Run(BOOT, steps[..|steps| - 1]).exec.Parked?))
  }

  lemma {:induction false} NeverStoppedEarly(steps: seq<Step>)
    requires NoStopRequest(steps)
    ensures !StoppedEarly(steps)
  {
    hide Run;
    if |steps| > 0 {
      NeverStoppedEarly(steps[..|steps| - 1]);
    }
  }

  /** While the heap loop lives, the executor is on its way out exactly when a stop request came early; and the controller is not past it. */
  predicate AsRequested(s: Sys, early: bool) {
    s.heapAlive ==> (Stopping(s.exec) <==> early) && (s.ctl.Running? || s.ctl.Commanded?)
  }

  lemma StepAsRequested(s: Sys, step: Step, early: bool)
    requires AsRequested(s, early)
    ensures AsRequested(Next(s, step), early || (step.RequestStop? && s.heapAlive && s.exec.Parked?))
  {
  }

  lemma {:induction false} RunAsRequested(steps: seq<Step>)
    ensures AsRequested(Run(BOOT, steps), StoppedEarly(steps)) && Conserved(Run(BOOT, steps))
  {
    if |steps| == 0 {
    } else {
      var front, last := steps[..|steps| - 1], steps[|steps| - 1];
      RunAsRequested(front);
      StepAsRequested(Run(BOOT, front), last, StoppedEarly(front));
      StepConserves(Run(BOOT, front), last);
      hide AsRequested, Conserved, Next;
    }
  }

  /**
   With any number of stop requests at any time: no fire has been lost and none can be lost without
   a further request, exactly when none has been lost yet and either the heap loop is gone or no
   request ever met a parked executor.
   */
  lemma SafeIff(steps: seq<Step>)
    ensures Safe(Run(BOOT, steps))
            <==> Run(BOOT, steps).lost == [] && (!Run(BOOT, steps).heapAlive || !StoppedEarly(steps))
  {
    RunAsRequested(steps);
    var s := Run(BOOT, steps);
    hide Run, StoppedEarly, Conserved;
    if s.heapAlive && StoppedEarly(steps) {
      StoppedWhileAliveIsUnsafe(s);
    } else if s.lost != [] {
      NothingRun(s);
      assert NoStopRequest([]);
    } else {
      forall more | NoStopRequest(more) ensures Run(s, more).lost == [] {
        RunKeepsOrderly(s, more);
      }
    }
  }

  // While it runs.

  predicate Busy(s: Sys) {
    s.channel != [] || s.exec.Processing?
  }

  /** A busy executor gets on, whatever else holds. */
  lemma BusyGetsOn(s: Sys)
    requires Busy(s) && !s.exec.Exited?
    ensures Measure(DoExec(s)) < Measure(s) && !DoExec(s).exec.Exited?
    ensures DoExec(s).processed + InHand(DoExec(s).exec) + DoExec(s).channel == s.processed + InHand(s.exec) + s.channel
  {
    assert s.channel != [] ==> s.channel == [s.channel[0]] + s.channel[1..];
  }

  /** An executor with nothing to do handles nothing. */
  lemma IdleStaysIdle(s: Sys)
    requires !Busy(s)
    ensures !Busy(DoExec(s)) && DoExec(s).processed == s.processed
  {
  }

  /**
   Left to itself the executor handles every fire it was sent, in order, within as many steps as the
   measure, stopped or not and whether or not the heap loop still lives.
   */
  lemma {:induction false} FiresAreHandled(s: Sys, n: nat)
    requires Conserved(s) && n >= Measure(s)
    ensures Run(s, ExecTimes(n)).channel == [] && InHand(Run(s, ExecTimes(n)).exec) == []
    ensures Run(s, ExecTimes(n)).processed == s.processed + InHand(s.exec) + s.channel
    decreases n
  {
    if n == 0 {
      NothingRun(s);
    } else {
      RunOne(s, Exec);
      RunAppend(s, [Exec], ExecTimes(n - 1));
      StepConserves(s, Exec);
      hide Run, Conserved;
      assert Conserved(s) ==> (s.exec.Exited? ==> s.channel == []) by { ExitedIsEmpty(s); }
      if Busy(s) {
        BusyGetsOn(s);
        FiresAreHandled(DoExec(s), n - 1);
      } else {
        IdleStaysIdle(s);
        StaysIdle(DoExec(s), n - 1);
      }
    }
  }

  lemma ExitedIsEmpty(s: Sys)
    requires Conserved(s)
    ensures s.exec.Exited? ==> s.channel == []
  {
  }

  lemma {:induction false} StaysIdle(s: Sys, n: nat)
    requires !Busy(s)
    ensures !Busy(Run(s, ExecTimes(n))) && Run(s, ExecTimes(n)).processed == s.processed
    decreases n
  {
    if n == 0 {
      NothingRun(s);
    } else {
      RunOne(s, Exec);
      RunAppend(s, [Exec], ExecTimes(n - 1));
      hide Run;
      IdleStaysIdle(s);
      StaysIdle(DoExec(s), n - 1);
    }
  }

  /** A fire is sent when the heap loop lives and the executor is gone or fewer than 256 are buffered; only then. */
  lemma SendsIff(s: Sys, f: Fire)
    ensures Next(s, Send(f)).sent == s.sent + [f] <==> s.heapAlive && (s.exec.Exited? || |s.channel| < 256)
    ensures Next(s, Send(f)).sent == s.sent + [f] || Next(s, Send(f)) == s
  {
  }

  // The shutdown call itself.

  /** The controller is past a wait only when what it waited for has happened. */
  predicate InOrder(s: Sys) {
    && (s.ctl.HeapJoined? || s.ctl.Notified? || s.ctl.Joined? ==> !s.heapAlive)
    && (s.ctl.Joined? ==> s.exec.Exited?)
  }

  lemma StepKeepsInOrder(s: Sys, step: Step)
    requires InOrder(s)
    ensures InOrder(Next(s, step))
  {
  }

  lemma {:induction false} RunKeepsInOrder(steps: seq<Step>)
    ensures InOrder(Run(BOOT, steps)) && Conserved(Run(BOOT, steps))
  {
    if |steps| == 0 {
    } else {
      var front := steps[..|steps| - 1];
      RunKeepsInOrder(front);
      StepKeepsInOrder(Run(BOOT, front), steps[|steps| - 1]);
      StepConserves(Run(BOOT, front), steps[|steps| - 1]);
      hide InOrder, Conserved, Next;
    }
  }

  /**
   When the shutdown has returned, whatever stop requests there were: the heap loop is gone, the
   executor has exited, the channel is empty, and every fire sent was handled, in order, but for
   those lost; and without stop requests none was lost.
   */
  lemma ShutdownReturnsLast(steps: seq<Step>)
    requires Run(BOOT, steps).ctl.Joined?
    ensures var s := Run(BOOT, steps);
            && !s.heapAlive && s.exec.Exited? && s.channel == [] && s.sent == s.processed + s.lost
            && (NoStopRequest(steps) ==> s.processed == s.sent)
  {
    RunKeepsInOrder(steps);
    if NoStopRequest(steps) {
      ShutdownLosesNoFire(steps);
    }
    hide Run;
  }

  /** It returns as soon as the executor, left to itself, has taken the steps it may need. */
  lemma JoinReturns(s: Sys, n: nat)
    requires !s.heapAlive && (s.ctl.Notified? || s.ctl.Joined?) && n >= Measure(s)
    ensures Run(s, ExecTimes(n) + [JoinExecutor]).ctl.Joined?
  {
    hide Run, Measure, ExecTimes;
    ExecTimesCount(n);
    ExecutorExits(s, ExecTimes(n));
    ExecsKeepController(s, n);
    RunOne(Run(s, ExecTimes(n)), JoinExecutor);
    RunAppend(s, ExecTimes(n), [JoinExecutor]);
  }

  lemma {:induction false} ExecsKeepController(s: Sys, n: nat)
    ensures Run(s, ExecTimes(n)).ctl == s.ctl
    decreases n
  {
    if n == 0 {
      NothingRun(s);
    } else {
      ExecsKeepController(Next(s, Exec), n - 1);
      RunOne(s, Exec);
      RunAppend(s, [Exec], ExecTimes(n - 1));
      hide Run;
    }
  }

  lemma {:induction false} ExecTimesCount(n: nat)
    ensures |ExecTimes(n)| == n && ExecSteps(ExecTimes(n)) == n
  {
    if n > 0 {
      ExecTimesCount(n - 1);
      ExecStepsCons(ExecTimes(n - 1));
    }
  }

  lemma {:induction false} ExecStepsCons(steps: seq<Step>)
    ensures ExecSteps([Exec] + steps) == 1 + ExecSteps(steps)
  {
    var all := [Exec] + steps;
    if |steps| == 0 {
      assert all[..0] == [];
    } else {
      ExecStepsCons(steps[..|steps| - 1]);
      assert all[..|all| - 1] == [Exec] + steps[..|steps| - 1];
    }
  }

  /** What the controller and the heap loop do in a shutdown, up to the last wait. */
  const TEARDOWN: seq<Step> := [Shutdown, HeapExit, JoinHeap, Notify]

  lemma TeardownIs(s: Sys)
    requires InOrder(s)
    ensures var t := Run(s, TEARDOWN);
            && !t.heapAlive && (t.ctl.Notified? || t.ctl.Joined?) && t.channel == s.channel && Measure(t) <= Measure(s)
  {
    var steps := TEARDOWN;
    assert steps == [Shutdown] + ([HeapExit] + ([JoinHeap] + [Notify]));
    var s1 := Next(s, Shutdown);
    var s2 := Next(s1, HeapExit);
    var s3 := Next(s2, JoinHeap);
    RunOne(s, Shutdown);
    RunOne(s1, HeapExit);
    RunOne(s2, JoinHeap);
    RunOne(s3, Notify);
    RunAppend(s, [Shutdown], [HeapExit] + ([JoinHeap] + [Notify]));
    RunAppend(s1, [HeapExit], [JoinHeap] + [Notify]);
    RunAppend(s2, [JoinHeap], [Notify]);
    hide Run;
  }

  /** From every reachable state a shutdown can be seen through: the teardown and 1027 executor steps, or more, are enough for it to return. */
  lemma ShutdownCompletes(steps: seq<Step>, n: nat)
    requires n >= 1027
    ensures Run(BOOT, steps + (TEARDOWN + (ExecTimes(n) + [JoinExecutor]))).ctl.Joined?
  {
    hide Run, ExecTimes, Measure;
    RunKeepsInOrder(steps);
    MeasureBound(steps);
    var s := Run(BOOT, steps);
    TeardownIs(s);
    JoinReturns(Run(s, TEARDOWN), n);
    RunAppend(s, TEARDOWN, ExecTimes(n) + [JoinExecutor]);
    RunAppend(BOOT, steps, TEARDOWN + (ExecTimes(n) + [JoinExecutor]));
  }

  // The drain loop.

  class Receiver {
    var buffer: seq<Fire>
    var handled: seq<Fire>

    constructor (buffer: seq<Fire>)
      ensures this.buffer == buffer && handled == []
    {
      this.buffer, handled := buffer, [];
    }

    method TryRecv() returns (f: Option<Fire>)
      modifies `buffer
      ensures old(buffer) == [] ==> f == None && buffer == []
      ensures old(buffer) != [] ==> f == Some(old(buffer)[0]) && buffer == old(buffer)[1..]
    {
      if buffer == [] {
        return None;
      }
      f := Some(buffer[0]);
      buffer := buffer[1..];
    }

    method ProcessFire(f: Fire)
      modifies `handled
      ensures handled == old(handled) + [f]
    {
      handled := handled + [f];
    }

    /** Handles every buffered fire, in order. */
    method DrainRemainingFires()
      modifies this
      ensures buffer == [] && handled == old(handled) + old(buffer)
    {
      var fire := TryRecv();
      while fire.Some?
        invariant handled + (if fire.Some? then [fire.value] else []) + buffer == old(handled) + old(buffer)
        invariant fire.None? ==> buffer == []
        decreases if fire.Some? then 1 + |buffer| else 0
      {
        ProcessFire(fire.value);
        fire := TryRecv();
      }
    }
  }
}
