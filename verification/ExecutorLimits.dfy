/** The admission limits hold in every interleaving, and every admitted run gives back each counter exactly once. */
module ExecutorLimits {
  import opened Wrappers
  import opened ExecutorModel
  import opened ExecutorRuns

  /** A run is admitted exactly when no check objects. */
  lemma AdmitsIff(q: CronQuota, g: GlobalQuota, s: Snapshot)
    ensures Evaluate(q, g, s).Admit? <==>
              && q.enabled
              && (s.retryAfter.Some? ==> s.retryAfter.value <= s.now)
              && (g.maxConcurrentRuns == 0 || s.runningGlobal < g.maxConcurrentRuns)
              && (g.cpuLoadThrottle.Some? && s.loadavg.Some? ==> s.loadavg.value <= g.cpuLoadThrottle.value)
              && s.runningForCron < q.maxConcurrentRuns
              && s.windowRuns < q.maxRunsPerDay
              && (q.budgetPerDay.Some? && q.budgetPerDay.value >= 0.0 ==> s.windowCost < q.budgetPerDay.value)
  {
  }

  /** The decision names the first check that objects, with the numbers that made it object; or there is none. */
  predicate FirstObjection(q: CronQuota, g: GlobalQuota, s: Snapshot, d: Decision) {
    var ready := q.enabled && (s.retryAfter.Some? ==> s.retryAfter.value <= s.now);
    var room := ready && (g.maxConcurrentRuns == 0 || s.runningGlobal < g.maxConcurrentRuns);
    var calm := room && (g.cpuLoadThrottle.Some? && s.loadavg.Some? ==> s.loadavg.value <= g.cpuLoadThrottle.value);
    var free := calm && s.runningForCron < q.maxConcurrentRuns;
    var within := free && s.windowRuns < q.maxRunsPerDay;
    match d
    case Admit => within
    case RefusePaused => !q.enabled
    case DeferBackoff(until) => q.enabled && !ready && s.retryAfter == Some(until)
    case RefuseConcurrentGlobal(limit, n) =>
      ready && !room && limit == g.maxConcurrentRuns && n == s.runningGlobal && n >= limit > 0
    case DeferLoadavg(t, x) => room && !calm && g.cpuLoadThrottle == Some(t) && s.loadavg == Some(x) && x > t
    case RefuseConcurrentPerCron(limit, n) => calm && !free && limit == q.maxConcurrentRuns && n == s.runningForCron && n >= limit
    case RefuseRunsPerDay(limit, n) => free && !within && limit == q.maxRunsPerDay && n == s.windowRuns && n >= limit
    case RefuseBudgetExceeded(limit, used) => within && q.budgetPerDay == Some(limit) && used == s.windowCost && used >= limit
  }

  lemma RefusalIsFirstObjection(q: CronQuota, g: GlobalQuota, s: Snapshot)
    ensures FirstObjection(q, g, s, Evaluate(q, g, s))
  {
  }

  // The global limit.

  predicate GlobalRoom(s: Exec, cap: nat, t: Task) {
    && (t.pc.SnapshotTaken? ==> s.global <= t.pc.global)
    && (t.pc.Admitted? ==> s.global < cap)
  }

  /** Under the limit, with room for whoever has been told there is room. */
  predicate CapOk(s: Exec, cap: nat) {
    && s.global <= cap
    && forall i :: 0 <= i < |s.tasks| ==> GlobalRoom(s, cap, s.tasks[i])
  }

  /** Only a lock holder that was admitted raises the global counter, and by one. */
  lemma GlobalMoves(cfg: Config, s: Exec, step: Step, cap: nat)
    requires !step.Arrive? && Who(step) < |s.tasks| && cap > 0 && cfg.global.maxConcurrentRuns == cap
    requires CapOk(s, cap)
    ensures |Next(cfg, s, step).tasks| == |s.tasks|
    ensures Next(cfg, s, step).global <= cap
    ensures GlobalRoom(Next(cfg, s, step), cap, Next(cfg, s, step).tasks[Who(step)])
    ensures Next(cfg, s, step).global > s.global ==> HoldsLock(s.tasks[Who(step)].pc)
  {
    assert GlobalRoom(s, cap, s.tasks[Who(step)]);
    hide FreeSlot, BumpSlot, LiveRows;
    if step.Decide? && s.tasks[Who(step)].pc.SnapshotTaken? {
      var pc := s.tasks[Who(step)].pc;
      AdmitsIff(step.quota, cfg.global, step.rest.(runningForCron := pc.rows, runningGlobal := pc.global));
    }
    hide Evaluate;
  }

  lemma StepKeepsCap(cfg: Config, s: Exec, step: Step, cap: nat)
    requires LockOk(s) && CapOk(s, cap) && cap > 0 && cfg.global.maxConcurrentRuns == cap
    ensures CapOk(Next(cfg, s, step), cap)
  {
    if !step.Arrive? {
      StepMovesOne(cfg, s, step);
      if Who(step) < |s.tasks| {
        GlobalMoves(cfg, s, step, cap);
        hide Next;
        var s' := Next(cfg, s, step);
        forall i | 0 <= i < |s'.tasks| ensures GlobalRoom(s', cap, s'.tasks[i]) {
          assert GlobalRoom(s, cap, s.tasks[i]);
        }
      }
    }
  }

  /** With a global limit set, the global counter never exceeds it, whatever the interleaving. */
  lemma {:induction false} GlobalLimitHolds(cfg: Config, steps: seq<Step>)
    requires cfg.global.maxConcurrentRuns > 0
    ensures CapOk(Run(cfg, steps), cfg.global.maxConcurrentRuns)
  {
    if |steps| == 0 {
    } else {
      var front, last := steps[..|steps| - 1], steps[|steps| - 1];
      GlobalLimitHolds(cfg, front);
      LockHolds(cfg, front);
      StepKeepsCap(cfg, Run(cfg, front), last, cfg.global.maxConcurrentRuns);
      hide CapOk, LockOk, Next;
    }
  }

  // The per-cron limit.

  /** What a task of cron `c` has been told about `live` rows is still true; before its row is written it has none. */
  predicate RowRoom(live: nat, c: string, m: nat, t: Task) {
    && (t.cron == c && t.pc.RowsRead? ==> live <= t.pc.rows)
    && (t.cron == c && t.pc.SnapshotTaken? ==> live <= t.pc.rows)
    && (t.cron == c && (t.pc.Admitted? || t.pc.GlobalBumped? || t.pc.BothBumped?) ==> live < m)
    && (t.rowLive ==> t.pc.RowWritten? || t.pc.Failing? || t.pc.FailingGlobalFreed? || t.pc.Watching?
                      || t.pc.Finishing? || t.pc.FinishingGlobalFreed? || t.pc.Done? || t.pc.Aborted?)
  }

  function Max(a: nat, b: nat): nat {
    if a > b then a else b
  }

  predicate RowsOk(cfg: Config, s: Exec, c: string, m: nat) {
    && LiveRows(cfg, s, c) <= Max(cfg.stranded(c), m)
    && forall i :: 0 <= i < |s.tasks| ==> RowRoom(LiveRows(cfg, s, c), c, m, s.tasks[i])
  }

  /** The quota a decision on cron `c` uses allows at most `m` concurrent runs. */
  predicate QuotaWithin(s: Exec, step: Step, c: string, m: nat) {
    step.Decide? && step.i < |s.tasks| && s.tasks[step.i].cron == c ==> step.quota.maxConcurrentRuns <= m
  }

  /** A row is added, one at a time, only by a task about to write it. */
  lemma LiveRowsMove(cfg: Config, s: Exec, step: Step, c: string)
    requires !step.Arrive? && Who(step) < |s.tasks|
    requires s.tasks[Who(step)].pc.BothBumped? ==> !s.tasks[Who(step)].rowLive
    ensures |Next(cfg, s, step).tasks| == |s.tasks|
    ensures LiveRows(cfg, Next(cfg, s, step), c) > LiveRows(cfg, s, c) ==>
              && LiveRows(cfg, Next(cfg, s, step), c) == LiveRows(cfg, s, c) + 1
              && s.tasks[Who(step)].cron == c && s.tasks[Who(step)].pc.BothBumped?
  {
    TallyStep(cfg, s, step, Row(c));
    hide Tally, FreeSlot, BumpSlot, SaturatingIncrement, SaturatingSub, Evaluate;
  }

  /** What the moved task has been told is true after the move. */
  lemma RoomMoves(cfg: Config, s: Exec, step: Step, c: string, m: nat, live': nat)
    requires !step.Arrive? && Who(step) < |s.tasks| && QuotaWithin(s, step, c, m)
    requires RowRoom(LiveRows(cfg, s, c), c, m, s.tasks[Who(step)])
    requires live' > LiveRows(cfg, s, c) ==> s.tasks[Who(step)].pc.BothBumped? && Next(cfg, s, step) != s
    ensures |Next(cfg, s, step).tasks| == |s.tasks|
    ensures RowRoom(live', c, m, Next(cfg, s, step).tasks[Who(step)])
  {
    hide FreeSlot, BumpSlot, SaturatingIncrement, SaturatingSub, LiveRows;
    if step.Decide? && s.tasks[Who(step)].pc.SnapshotTaken? {
      var pc := s.tasks[Who(step)].pc;
      AdmitsIff(step.quota, cfg.global, step.rest.(runningForCron := pc.rows, runningGlobal := pc.global));
    }
    hide Evaluate;
  }

  lemma RowsMove(cfg: Config, s: Exec, step: Step, c: string, m: nat)
    requires !step.Arrive? && Who(step) < |s.tasks| && QuotaWithin(s, step, c, m)
    requires RowsOk(cfg, s, c, m)
    ensures |Next(cfg, s, step).tasks| == |s.tasks|
    ensures LiveRows(cfg, Next(cfg, s, step), c) <= Max(cfg.stranded(c), m)
    ensures RowRoom(LiveRows(cfg, Next(cfg, s, step), c), c, m, Next(cfg, s, step).tasks[Who(step)])
    ensures LiveRows(cfg, Next(cfg, s, step), c) > LiveRows(cfg, s, c) ==> HoldsLock(s.tasks[Who(step)].pc)
  {
    assert RowRoom(LiveRows(cfg, s, c), c, m, s.tasks[Who(step)]);
    LiveRowsMove(cfg, s, step, c);
    RoomMoves(cfg, s, step, c, m, LiveRows(cfg, Next(cfg, s, step), c));
    hide Next, LiveRows;
  }

  /** What a task was told stays true when no row is added, or when it was told nothing yet. */
  lemma RoomStays(live: nat, live': nat, c: string, m: nat, t: Task)
    requires RowRoom(live, c, m, t) && (live' <= live || !HoldsLock(t.pc))
    ensures RowRoom(live', c, m, t)
  {
  }

  lemma ArrivalKeepsRows(cfg: Config, s: Exec, step: Step, c: string, m: nat)
    requires step.Arrive? && RowsOk(cfg, s, c, m)
    ensures RowsOk(cfg, Next(cfg, s, step), c, m)
  {
    TallyStep(cfg, s, step, Row(c));
    hide Tally;
  }

  lemma StepKeepsRows(cfg: Config, s: Exec, step: Step, c: string, m: nat)
    requires LockOk(s) && RowsOk(cfg, s, c, m) && QuotaWithin(s, step, c, m)
    ensures RowsOk(cfg, Next(cfg, s, step), c, m)
  {
    if step.Arrive? {
      ArrivalKeepsRows(cfg, s, step, c, m);
    } else {
      StepMovesOne(cfg, s, step);
      if Who(step) < |s.tasks| {
        RowsMove(cfg, s, step, c, m);
        hide Next, LiveRows, RowRoom, HoldsLock, QuotaWithin;
        var s' := Next(cfg, s, step);
        forall i | 0 <= i < |s'.tasks| ensures RowRoom(LiveRows(cfg, s', c), c, m, s'.tasks[i]) {
          if i != Who(step) {
            RoomStays(LiveRows(cfg, s, c), LiveRows(cfg, s', c), c, m, s.tasks[i]);
          }
        }
      }
    }
  }

  /** Every decision on cron `c` in the run used a quota of at most `m` concurrent runs. */
  predicate QuotasWithin(cfg: Config, steps: seq<Step>, c: string, m: nat) {
    |steps| == 0
    || (QuotasWithin(cfg, steps[..|steps| - 1], c, m)
        && QuotaWithin(Run(cfg, steps[..|steps| - 1]), steps[|steps| - 1], c, m))
  }

  /** A cron's unfinished run rows never exceed its limit, beyond those already there at start. */
  lemma {:induction false} CronLimitHolds(cfg: Config, steps: seq<Step>, c: string, m: nat)
    requires QuotasWithin(cfg, steps, c, m)
    ensures RowsOk(cfg, Run(cfg, steps), c, m)
  {
    if |steps| == 0 {
    } else {
      var front, last := steps[..|steps| - 1], steps[|steps| - 1];
      CronLimitHolds(cfg, front, c, m);
      LockHolds(cfg, front);
      StepKeepsRows(cfg, Run(cfg, front), last, c, m);
      hide RowsOk, LockOk, Next, QuotaWithin;
    }
  }

  // Exactly once.

  /** What one task has done so far: admissions, takes and frees of either counter. */
  datatype Ledger = Ledger(admits: nat, takesGlobal: nat, takesSlot: nat, freesGlobal: nat, freesSlot: nat)

  function Did(happened: bool): nat {
    if happened then 1 else 0
  }

  /** A step is recorded when it has an effect; an admission when the decision let its run go on. */
  function Record(cfg: Config, s: Exec, step: Step, i: nat, l: Ledger): Ledger {
    var s' := Next(cfg, s, step);
    if step.Arrive? || Who(step) != i || s' == s then l
    else
      Ledger(l.admits + Did(At(s', i, Admitted)),
             l.takesGlobal + Did(step.BumpGlobal?),
             l.takesSlot + Did(step.BumpCron?),
             l.freesGlobal + Did(step.FreeGlobal?),
             l.freesSlot + Did(step.FreeCron?))
  }

  function LedgerOf(cfg: Config, steps: seq<Step>, i: nat): Ledger {
    if steps == [] then Ledger(0, 0, 0, 0, 0)
    else Record(cfg, Run(cfg, steps[..|steps| - 1]), steps[|steps| - 1], i, LedgerOf(cfg, steps[..|steps| - 1], i))
  }

  /** Of either counter it has given back all but so much. */
  predicate Kept(l: Ledger, global: nat, slot: nat) {
    l.takesGlobal == l.freesGlobal + global && l.takesSlot == l.freesSlot + slot
  }

  /** The ledger a task has at each point. */
  predicate Balanced(pc: Pc, l: Ledger) {
    match pc
    case Waiting => l == Ledger(0, 0, 0, 0, 0)
    case Locked => l == Ledger(0, 0, 0, 0, 0)
    case RowsRead(_) => l == Ledger(0, 0, 0, 0, 0)
    case SnapshotTaken(_, _) => l == Ledger(0, 0, 0, 0, 0)
    case Admitted => l == Ledger(1, 0, 0, 0, 0)
    case GlobalBumped => l == Ledger(1, 1, 0, 0, 0)
    case FailingGlobalFreed => l == Ledger(1, 1, 1, 1, 0)
    case FinishingGlobalFreed => l == Ledger(1, 1, 1, 1, 0)
    case Done => l == Ledger(0, 0, 0, 0, 0) || l == Ledger(1, 1, 1, 1, 1)
    case Aborted(global, slot) => Kept(l, Did(global), Did(slot)) && l.takesSlot <= l.takesGlobal <= l.admits <= 1
    case _ => l == Ledger(1, 1, 1, 0, 0)
  }

  predicate UpToDecision(step: Step) {
    step.Acquire? || step.GiveUp? || step.ReadRows? || step.ReadGlobal? || step.Decide?
  }

  lemma EarlyStepBalances(cfg: Config, s: Exec, step: Step, l: Ledger)
    requires UpToDecision(step) && Who(step) < |s.tasks| && Balanced(s.tasks[Who(step)].pc, l)
    ensures |Next(cfg, s, step).tasks| == |s.tasks|
    ensures Balanced(Next(cfg, s, step).tasks[Who(step)].pc, Record(cfg, s, step, Who(step), l))
  {
    hide Evaluate, LiveRows;
  }

  lemma AbortBalances(cfg: Config, s: Exec, step: Step, l: Ledger)
    requires step.Abort? && Who(step) < |s.tasks| && Balanced(s.tasks[Who(step)].pc, l)
    ensures |Next(cfg, s, step).tasks| == |s.tasks|
    ensures Balanced(Next(cfg, s, step).tasks[Who(step)].pc, Record(cfg, s, step, Who(step), l))
  {
  }

  lemma FreeBalances(cfg: Config, s: Exec, step: Step, l: Ledger)
    requires (step.FreeGlobal? || step.FreeCron?) && Who(step) < |s.tasks| && Balanced(s.tasks[Who(step)].pc, l)
    ensures |Next(cfg, s, step).tasks| == |s.tasks|
    ensures Balanced(Next(cfg, s, step).tasks[Who(step)].pc, Record(cfg, s, step, Who(step), l))
  {
    hide FreeSlot, SaturatingSub, HoldsLock, HoldsGlobal, HoldsSlot;
    var pc := s.tasks[Who(step)].pc;
    if !pc.Failing? && !pc.Finishing? && !pc.FailingGlobalFreed? && !pc.FinishingGlobalFreed? {
      assert Next(cfg, s, step) == s;
      hide Balanced;
    }
  }

  lemma LateStepBalances(cfg: Config, s: Exec, step: Step, l: Ledger)
    requires !UpToDecision(step) && !step.Arrive? && !step.Abort? && !step.FreeGlobal? && !step.FreeCron?
    requires Who(step) < |s.tasks| && Balanced(s.tasks[Who(step)].pc, l)
    ensures |Next(cfg, s, step).tasks| == |s.tasks|
    ensures Balanced(Next(cfg, s, step).tasks[Who(step)].pc, Record(cfg, s, step, Who(step), l))
  {
    hide FreeSlot, BumpSlot, SaturatingIncrement, SaturatingSub;
  }

  lemma StepBalances(cfg: Config, s: Exec, step: Step, i: nat, l: Ledger)
    requires i < |s.tasks| && Balanced(s.tasks[i].pc, l)
    ensures i < |Next(cfg, s, step).tasks| && Balanced(Next(cfg, s, step).tasks[i].pc, Record(cfg, s, step, i, l))
  {
    if step.Arrive? {
      hide Balanced;
    } else if Who(step) != i {
      StepMovesOne(cfg, s, step);
      hide Next, Balanced;
    } else {
      hide Next, Balanced, Record;
      if UpToDecision(step) {
        EarlyStepBalances(cfg, s, step, l);
      } else if step.Abort? {
        AbortBalances(cfg, s, step, l);
      } else if step.FreeGlobal? || step.FreeCron? {
        FreeBalances(cfg, s, step, l);
      } else {
        LateStepBalances(cfg, s, step, l);
      }
    }
  }

  lemma UnknownTaskIdle(cfg: Config, s: Exec, step: Step, i: nat, l: Ledger)
    requires i >= |s.tasks|
    ensures Record(cfg, s, step, i, l) == l
    ensures i < |Next(cfg, s, step).tasks| ==> Next(cfg, s, step).tasks[i].pc.Waiting?
  {
    if !step.Arrive? {
      StepMovesOne(cfg, s, step);
    }
  }

  /**
   At every point of every run a task has taken and freed each counter as often as its place says:
   when it is done, an admitted task exactly once each, whichever failure or success path it took,
   and a refused one never; when it was cut off, all but what it then held.
   */
  lemma {:induction false} LedgersBalance(cfg: Config, steps: seq<Step>, i: nat)
    ensures i < |Run(cfg, steps).tasks| ==> Balanced(Run(cfg, steps).tasks[i].pc, LedgerOf(cfg, steps, i))
    ensures i >= |Run(cfg, steps).tasks| ==> LedgerOf(cfg, steps, i) == Ledger(0, 0, 0, 0, 0)
  {
    if |steps| == 0 {
    } else {
      var front, last := steps[..|steps| - 1], steps[|steps| - 1];
      var s := Run(cfg, front);
      LedgersBalance(cfg, front, i);
      if i < |s.tasks| {
        StepBalances(cfg, s, last, i, LedgerOf(cfg, front, i));
      } else {
        UnknownTaskIdle(cfg, s, last, i, LedgerOf(cfg, front, i));
      }
      hide Next, Record;
    }
  }

  /** A task that is over took each counter at most once, and gave back all it took exactly when it was not cut off while holding something; a scheduled one always did. */
  lemma ReleasesExactlyOnceIff(cfg: Config, steps: seq<Step>, i: nat)
    requires i < |Run(cfg, steps).tasks|
    requires Run(cfg, steps).tasks[i].pc.Done? || Run(cfg, steps).tasks[i].pc.Aborted?
    ensures var t, l := Run(cfg, steps).tasks[i], LedgerOf(cfg, steps, i);
            && l.takesGlobal <= 1 && l.takesSlot <= 1
            && (Kept(l, 0, 0) <==> !Leaks(t))
            && (!t.manual ==> Kept(l, 0, 0) && l.admits == l.takesGlobal == l.takesSlot)
  {
    LedgersBalance(cfg, steps, i);
    OnlyManualRunsAbort(cfg, steps, i);
    hide Run, LedgerOf;
  }
}
