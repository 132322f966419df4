/**
 Cron runs from fire to release, as an interleaving of tasks. A scheduled fire and a manual
 run_now are one kind of task: it takes the admission lock, reads the snapshot in two steps,
 decides, and if admitted bumps two counters that sit under separate locks, writes its run row
 and spawns. The watcher it leaves behind finishes the row and frees the counters without the lock.
 */
module ExecutorModel {
  import opened Wrappers

  const U32_MAX: nat := 0xFFFF_FFFF

  function SaturatingIncrement(n: nat): nat {
    if n < U32_MAX then n + 1 else n
  }

  // The admission decision.

  datatype CronQuota = CronQuota(
    enabled: bool,
    maxConcurrentRuns: nat,
    maxRunsPerDay: nat,
    budgetPerDay: Option<real>)

  datatype GlobalQuota = GlobalQuota(maxConcurrentRuns: nat, cpuLoadThrottle: Option<real>)

  /** What the gate sees; `retryAfter` is when the failure backoff lets the cron run again, if it is active. */
  datatype Snapshot = Snapshot(
    runningForCron: nat,
    runningGlobal: nat,
    windowRuns: nat,
    windowCost: real,
    loadavg: Option<real>,
    now: int,
    retryAfter: Option<int>)

  datatype Decision =
    | Admit
    | RefusePaused
    | RefuseConcurrentPerCron(limit: nat, inFlight: nat)
    | RefuseConcurrentGlobal(limit: nat, inFlight: nat)
    | RefuseRunsPerDay(limit: nat, used: nat)
    | RefuseBudgetExceeded(limitUsd: real, usedUsd: real)
    | DeferLoadavg(threshold: real, sampled: real)
    | DeferBackoff(until: int)

  /** The checks in order of priority. A global limit of zero means no limit; a per-cron limit of zero admits nothing. */
  function Evaluate(q: CronQuota, g: GlobalQuota, s: Snapshot): Decision {
    if !q.enabled then RefusePaused
    else if s.retryAfter.Some? && s.retryAfter.value > s.now then DeferBackoff(s.retryAfter.value)
    else if g.maxConcurrentRuns > 0 && s.runningGlobal >= g.maxConcurrentRuns then
      RefuseConcurrentGlobal(g.maxConcurrentRuns, s.runningGlobal)
    else if g.cpuLoadThrottle.Some? && s.loadavg.Some? && s.loadavg.value > g.cpuLoadThrottle.value then
      DeferLoadavg(g.cpuLoadThrottle.value, s.loadavg.value)
    else if s.runningForCron >= q.maxConcurrentRuns then RefuseConcurrentPerCron(q.maxConcurrentRuns, s.runningForCron)
    else if s.windowRuns >= q.maxRunsPerDay then RefuseRunsPerDay(q.maxRunsPerDay, s.windowRuns)
    else if q.budgetPerDay.Some? && q.budgetPerDay.value >= 0.0 && s.windowCost >= q.budgetPerDay.value then
      RefuseBudgetExceeded(q.budgetPerDay.value, s.windowCost)
    else Admit
  }

  // Tasks.

  datatype Pc =
    | Waiting
    | Locked
    | RowsRead(rows: nat)
    | SnapshotTaken(rows: nat, global: nat)
    | Admitted
    | GlobalBumped
    | BothBumped
    | RowWritten
    | Failing
    | FailingGlobalFreed
    | Watching
    | Finishing
    | FinishingGlobalFreed
    | Done
    | Aborted(holdsGlobal: bool, holdsSlot: bool)

  /** `manual`: a run_now, living on its client's connection. `rowLive`: this task's run row exists and is unfinished. */
  datatype Task = Task(cron: string, manual: bool, pc: Pc, rowLive: bool)

  /** `stranded` counts, per cron, the unfinished rows an earlier daemon left behind. */
  datatype Config = Config(global: GlobalQuota, stranded: string -> nat)

  datatype Exec = Exec(tasks: seq<Task>, lock: Option<nat>, global: nat, perCron: map<string, nat>)

  datatype Step =
    | Arrive(cron: string, manual: bool)
    | Acquire(i: nat)
    | GiveUp(i: nat)
    | ReadRows(i: nat)
    | ReadGlobal(i: nat)
    | Decide(i: nat, quota: CronQuota, rest: Snapshot)
    | BumpGlobal(i: nat)
    | BumpCron(i: nat)
    | CreateRow(i: nat, ok: bool, inserted: bool)
    | SpawnOk(i: nat)
    | SpawnFail(i: nat, persisted: bool)
    | FinishRun(i: nat, persisted: bool)
    | FreeGlobal(i: nat)
    | FreeCron(i: nat)
    | Abort(i: nat, inserted: bool)

  /** Something a task may hold, and be counted for. */
  datatype Kind = Global | Slot(cron: string) | AnySlot | Row(cron: string) | BetweenBumps | BetweenFrees

  predicate HoldsLock(pc: Pc) {
    !pc.Waiting? && !pc.Watching? && !pc.Finishing? && !pc.FinishingGlobalFreed? && !pc.Done? && !pc.Aborted?
  }

  predicate HoldsGlobal(pc: Pc) {
    pc.GlobalBumped? || pc.BothBumped? || pc.RowWritten? || pc.Failing? || pc.Watching? || pc.Finishing?
    || (pc.Aborted? && pc.holdsGlobal)
  }

  predicate HoldsSlot(pc: Pc) {
    pc.BothBumped? || pc.RowWritten? || pc.Failing? || pc.FailingGlobalFreed? || pc.Watching? || pc.Finishing?
    || pc.FinishingGlobalFreed? || (pc.Aborted? && pc.holdsSlot)
  }

  predicate Counts(k: Kind, t: Task) {
    match k
    case Global => HoldsGlobal(t.pc)
    case Slot(c) => HoldsSlot(t.pc) && t.cron == c
    case AnySlot => HoldsSlot(t.pc)
    case Row(c) => t.rowLive && t.cron == c
    case BetweenBumps => t.pc.GlobalBumped? || t.pc == Aborted(true, false)
    case BetweenFrees => t.pc.FailingGlobalFreed? || t.pc.FinishingGlobalFreed? || t.pc == Aborted(false, true)
  }

  function One(k: Kind, t: Task): nat {
    if Counts(k, t) then 1 else 0
  }

  function Tally(ts: seq<Task>, k: Kind): nat {
    if ts == [] then 0 else Tally(ts[..|ts| - 1], k) + One(k, ts[|ts| - 1])
  }

  /** The rows the database counts as running for a cron. */
  function LiveRows(cfg: Config, s: Exec, c: string): nat {
    cfg.stranded(c) + Tally(s.tasks, Row(c))
  }

  function SlotsOf(m: map<string, nat>, c: string): nat {
    if c in m then m[c] else 0
  }

  function BumpSlot(m: map<string, nat>, c: string): map<string, nat> {
    m[c := SaturatingIncrement(SlotsOf(m, c))]
  }

  function FreeSlot(m: map<string, nat>, c: string): map<string, nat> {
    if c !in m then m
    else if SaturatingSub(m[c], 1) == 0 then m - {c}
    else m[c := SaturatingSub(m[c], 1)]
  }

  predicate At(s: Exec, i: nat, pc: Pc) {
    i < |s.tasks| && s.tasks[i].pc == pc
  }

  function Goto(s: Exec, i: nat, pc: Pc): Exec
    requires i < |s.tasks|
  {
    s.(tasks := s.tasks[i := s.tasks[i].(pc := pc)])
  }

  /** Leaves the admission section. */
  function Leave(s: Exec, i: nat, pc: Pc): Exec
    requires i < |s.tasks|
  {
    Goto(s, i, pc).(lock := None)
  }

  function SetRow(s: Exec, i: nat, pc: Pc, live: bool): Exec
    requires i < |s.tasks|
  {
    s.(tasks := s.tasks[i := s.tasks[i].(pc := pc, rowLive := live)])
  }

  function DoDecide(cfg: Config, s: Exec, i: nat, q: CronQuota, rest: Snapshot): Exec {
    if i < |s.tasks| && s.tasks[i].pc.SnapshotTaken? then
      var seen := rest.(runningForCron := s.tasks[i].pc.rows, runningGlobal := s.tasks[i].pc.global);
      if Evaluate(q, cfg.global, seen).Admit? then Goto(s, i, Admitted) else Leave(s, i, Done)
    else s
  }

  /** A failed insert may have inserted the row and only failed to read it back. */
  function DoCreateRow(s: Exec, i: nat, ok: bool, inserted: bool): Exec {
    if !At(s, i, BothBumped) then s
    else SetRow(s, i, if ok then RowWritten else Failing, ok || inserted)
  }

  function DoFreeGlobal(s: Exec, i: nat): Exec {
    if At(s, i, Failing) then Goto(s, i, FailingGlobalFreed).(global := SaturatingSub(s.global, 1))
    else if At(s, i, Finishing) then Goto(s, i, FinishingGlobalFreed).(global := SaturatingSub(s.global, 1))
    else s
  }

  function DoFreeCron(s: Exec, i: nat): Exec {
    if At(s, i, FailingGlobalFreed) then Leave(s, i, Done).(perCron := FreeSlot(s.perCron, s.tasks[i].cron))
    else if At(s, i, FinishingGlobalFreed) then Goto(s, i, Done).(perCron := FreeSlot(s.perCron, s.tasks[i].cron))
    else s
  }

  /** A connection's end cuts a manual run wherever it waits: the lock guard is dropped, and nothing else is given back. */
  function DoAbort(s: Exec, i: nat, inserted: bool): Exec {
    if i < |s.tasks| && s.tasks[i].manual && (s.tasks[i].pc.Waiting? || HoldsLock(s.tasks[i].pc)) then
      var t := s.tasks[i];
      var cut := SetRow(s, i, Aborted(HoldsGlobal(t.pc), HoldsSlot(t.pc)), t.rowLive || (t.pc.BothBumped? && inserted));
      if HoldsLock(t.pc) then cut.(lock := None) else cut
    else s
  }

  /** One atomic step; a step that is not enabled changes nothing. */
  function Next(cfg: Config, s: Exec, step: Step): Exec {
    match step
    case Arrive(c, manual) => s.(tasks := s.tasks + [Task(c, manual, Waiting, false)])
    case Acquire(i) => if At(s, i, Waiting) && s.lock.None? then Goto(s, i, Locked).(lock := Some(i)) else s
    case GiveUp(i) =>
      if i < |s.tasks| && (s.tasks[i].pc.Locked? || s.tasks[i].pc.RowsRead?) then Leave(s, i, Done) else s
    case ReadRows(i) => if At(s, i, Locked) then Goto(s, i, RowsRead(LiveRows(cfg, s, s.tasks[i].cron))) else s
    case ReadGlobal(i) =>
      if i < |s.tasks| && s.tasks[i].pc.RowsRead? then Goto(s, i, SnapshotTaken(s.tasks[i].pc.rows, s.global)) else s
    case Decide(i, q, rest) => DoDecide(cfg, s, i, q, rest)
    case BumpGlobal(i) => if At(s, i, Admitted) then Goto(s, i, GlobalBumped).(global := SaturatingIncrement(s.global)) else s
    case BumpCron(i) =>
      if At(s, i, GlobalBumped) then Goto(s, i, BothBumped).(perCron := BumpSlot(s.perCron, s.tasks[i].cron)) else s
    case CreateRow(i, ok, inserted) => DoCreateRow(s, i, ok, inserted)
    case SpawnOk(i) => if At(s, i, RowWritten) then Leave(s, i, Watching) else s
    case SpawnFail(i, persisted) => if At(s, i, RowWritten) then SetRow(s, i, Failing, s.tasks[i].rowLive && !persisted) else s
    case FinishRun(i, persisted) => if At(s, i, Watching) then SetRow(s, i, Finishing, s.tasks[i].rowLive && !persisted) else s
    case FreeGlobal(i) => DoFreeGlobal(s, i)
    case FreeCron(i) => DoFreeCron(s, i)
    case Abort(i, inserted) => DoAbort(s, i, inserted)
  }

  const BOOT: Exec := Exec([], None, 0, map[])

  function Run(cfg: Config, steps: seq<Step>): Exec {
    if steps == [] then BOOT else Next(cfg, Run(cfg, steps[..|steps| - 1]), steps[|steps| - 1])
  }

  // The counters as the source keeps them.

  class Counters {
    var runningGlobal: nat
    var runningPerCron: map<string, nat>

    constructor ()
      ensures runningGlobal == 0 && runningPerCron == map[]
    {
      runningGlobal, runningPerCron := 0, map[];
    }

    method BumpGlobalCount()
      modifies `runningGlobal
      ensures runningGlobal == SaturatingIncrement(old(runningGlobal))
    {
      if runningGlobal < U32_MAX {
        runningGlobal := runningGlobal + 1;
      }
    }

    method BumpRunningForCron(c: string)
      modifies `runningPerCron
      ensures runningPerCron == BumpSlot(old(runningPerCron), c)
    {
      if c !in runningPerCron {
        runningPerCron := runningPerCron[c := 0];
      }
      var slot := runningPerCron[c];
      runningPerCron := runningPerCron[c := if slot < U32_MAX then slot + 1 else slot];
    }

    method DecrementGlobal()
      modifies `runningGlobal
      ensures runningGlobal == SaturatingSub(old(runningGlobal), 1)
    {
      if runningGlobal > 0 {
        runningGlobal := runningGlobal - 1;
      }
    }

    method DecrementForCron(c: string)
      modifies `runningPerCron
      ensures runningPerCron == FreeSlot(old(runningPerCron), c)
    {
      if c in runningPerCron {
        var slot := SaturatingSub(runningPerCron[c], 1);
        runningPerCron := runningPerCron[c := slot];
        if slot == 0 {
          runningPerCron := runningPerCron - {c};
        }
      }
    }
  }
}
