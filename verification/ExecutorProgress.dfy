/** The admission section never blocks for good, every task takes few steps, and what a cut-off run leaves behind. */
module ExecutorProgress {
  import opened Wrappers
  import opened ExecutorModel
  import opened ExecutorRuns

  /** An upper bound on the steps a task still takes. */
  function Rank(pc: Pc): nat {
    match pc
    case Waiting => 12
    case Locked => 11
    case RowsRead(_) => 10
    case SnapshotTaken(_, _) => 9
    case Admitted => 8
    case GlobalBumped => 7
    case BothBumped => 6
    case RowWritten => 5
    case Watching => 4
    case Finishing => 3
    case Failing => 2
    case FinishingGlobalFreed => 1
    case FailingGlobalFreed => 1
    case Done => 0
    case Aborted(_, _) => 0
  }

  predicate Over(pc: Pc) {
    pc.Done? || pc.Aborted?
  }

  /** The rest of the work of all tasks together. */
  function Work(ts: seq<Task>): nat {
    if ts == [] then 0 else Work(ts[..|ts| - 1]) + Rank(ts[|ts| - 1].pc)
  }

  lemma {:induction false} WorkUpdate(ts: seq<Task>, i: nat, t: Task)
    requires i < |ts|
    ensures Work(ts[i := t]) == Work(ts) - Rank(ts[i].pc) + Rank(t.pc)
  {
    hide Rank;
    var n := |ts| - 1;
    if i == n {
      assert ts[i := t][..n] == ts[..n];
    } else {
      WorkUpdate(ts[..n], i, t);
      assert ts[i := t][..n] == ts[..n][i := t];
    }
  }

  /** A step moves its task down, or does nothing at all. */
  lemma StepGoesDown(cfg: Config, s: Exec, step: Step)
    requires !step.Arrive? && Who(step) < |s.tasks|
    ensures |Next(cfg, s, step).tasks| == |s.tasks|
    ensures Next(cfg, s, step) == s || Rank(Next(cfg, s, step).tasks[Who(step)].pc) < Rank(s.tasks[Who(step)].pc)
  {
    hide Evaluate, FreeSlot, BumpSlot, LiveRows, SaturatingIncrement, SaturatingSub;
  }

  /** What a task can do next of its own accord. */
  function Own(pc: Pc, i: nat, q: CronQuota, rest: Snapshot): Step {
    match pc
    case Waiting => Acquire(i)
    case Locked => ReadRows(i)
    case RowsRead(_) => ReadGlobal(i)
    case SnapshotTaken(_, _) => Decide(i, q, rest)
    case Admitted => BumpGlobal(i)
    case GlobalBumped => BumpCron(i)
    case BothBumped => CreateRow(i, true, true)
    case RowWritten => SpawnOk(i)
    case Watching => FinishRun(i, true)
    case Finishing => FreeGlobal(i)
    case Failing => FreeGlobal(i)
    case _ => FreeCron(i)
  }

  /** Every unfinished task can move, if only the lock is free when it waits for it. */
  lemma CanMove(cfg: Config, s: Exec, i: nat, q: CronQuota, rest: Snapshot)
    requires i < |s.tasks| && !Over(s.tasks[i].pc) && (s.tasks[i].pc.Waiting? ==> s.lock.None?)
    ensures Who(Own(s.tasks[i].pc, i, q, rest)) == i && Next(cfg, s, Own(s.tasks[i].pc, i, q, rest)) != s
  {
    hide Evaluate, FreeSlot, BumpSlot, LiveRows, SaturatingIncrement, SaturatingSub;
    assert Next(cfg, s, Own(s.tasks[i].pc, i, q, rest)).tasks[i].pc != s.tasks[i].pc;
  }

  /** The first to look at: the lock's holder when there is one, and otherwise any unfinished task. */
  function Mover(s: Exec, i: nat): nat {
    if s.lock.Some? then s.lock.value else i
  }

  /**
   No deadlock: in every reachable state with an unfinished task, some task can move by itself,
   and the move lowers the work left.
   */
  lemma NeverStuck(cfg: Config, steps: seq<Step>, i: nat, q: CronQuota, rest: Snapshot)
    requires i < |Run(cfg, steps).tasks| && !Over(Run(cfg, steps).tasks[i].pc)
    ensures var s := Run(cfg, steps);
            && Mover(s, i) < |s.tasks|
            && var step := Own(s.tasks[Mover(s, i)].pc, Mover(s, i), q, rest);
               !step.Arrive? && Work(Next(cfg, s, step).tasks) < Work(s.tasks)
  {
    LockHolds(cfg, steps);
    var s := Run(cfg, steps);
    hide Run;
    var m := Mover(s, i);
    if s.lock.Some? {
      assert HoldsLock(s.tasks[m].pc);
    }
    CanMove(cfg, s, m, q, rest);
    MoveLowersWork(cfg, s, Own(s.tasks[m].pc, m, q, rest));
  }

  lemma MoveLowersWork(cfg: Config, s: Exec, step: Step)
    requires !step.Arrive? && Who(step) < |s.tasks|
    ensures Next(cfg, s, step) == s || Work(Next(cfg, s, step).tasks) < Work(s.tasks)
  {
    StepGoesDown(cfg, s, step);
    StepMovesOne(cfg, s, step);
    WorkUpdate(s.tasks, Who(step), Next(cfg, s, step).tasks[Who(step)]);
    hide Next, Rank, Work;
  }

  /** How many steps of a run had an effect, arrivals aside. */
  function Effective(cfg: Config, steps: seq<Step>): nat {
    if steps == [] then 0
    else
      var s, last := Run(cfg, steps[..|steps| - 1]), steps[|steps| - 1];
      Effective(cfg, steps[..|steps| - 1]) + if last.Arrive? || Next(cfg, s, last) == s then 0 else 1
  }

  /** Every fire and every manual run costs at most twelve steps. */
  lemma {:induction false} WorkIsBounded(cfg: Config, steps: seq<Step>)
    ensures Effective(cfg, steps) + Work(Run(cfg, steps).tasks) <= 12 * |Run(cfg, steps).tasks|
  {
    if |steps| == 0 {
    } else {
      var s, last := Run(cfg, steps[..|steps| - 1]), steps[|steps| - 1];
      WorkIsBounded(cfg, steps[..|steps| - 1]);
      if last.Arrive? {
        ArrivalWork(cfg, s, last);
      } else {
        StepMovesOne(cfg, s, last);
        if Who(last) < |s.tasks| {
          MoveLowersWork(cfg, s, last);
        }
      }
      hide Next, Work;
    }
  }

  lemma ArrivalWork(cfg: Config, s: Exec, step: Step)
    requires step.Arrive?
    ensures |Next(cfg, s, step).tasks| == |s.tasks| + 1 && Work(Next(cfg, s, step).tasks) == Work(s.tasks) + 12
  {
    var t := Task(step.cron, step.manual, Waiting, false);
    assert (s.tasks + [t])[..|s.tasks|] == s.tasks;
  }

  // What a cut-off run leaves behind.

  lemma RunSnoc(cfg: Config, steps: seq<Step>, step: Step)
    ensures Run(cfg, steps + [step]) == Next(cfg, Run(cfg, steps), step)
  {
    assert (steps + [step])[..|steps|] == steps;
    hide Next;
  }

  /** The only task of an executor, at one place. */
  function Alone(c: string, pc: Pc, lock: Option<nat>, global: nat): Exec {
    Exec([Task(c, true, pc, false)], lock, global, map[])
  }

  /** A manual run whose connection ends between its two bumps: the global counter keeps its slot for ever. */
  lemma AbortLeaks(cfg: Config, c: string, q: CronQuota, rest: Snapshot) returns (steps: seq<Step>)
    requires Evaluate(q, cfg.global, rest.(runningForCron := cfg.stranded(c), runningGlobal := 0)).Admit?
    ensures Run(cfg, steps) == Alone(c, Aborted(true, false), None, 1) && AtRest(Run(cfg, steps))
  {
    hide Run, Evaluate;
    var n := cfg.stranded(c);
    EmptyRun(cfg);
    RunSnoc(cfg, [], Arrive(c, true));
    steps := [Arrive(c, true)];
    assert [] + [Arrive(c, true)] == steps;
    assert [] + [Task(c, true, Waiting, false)] == [Task(c, true, Waiting, false)];
    assert Run(cfg, steps) == Alone(c, Waiting, None, 0);
    steps := Along(cfg, c, steps, Acquire(0), Waiting, None, 0, Locked, Some(0), 0);
    NoLiveRows(cfg, c);
    steps := Along(cfg, c, steps, ReadRows(0), Locked, Some(0), 0, RowsRead(n), Some(0), 0);
    steps := Along(cfg, c, steps, ReadGlobal(0), RowsRead(n), Some(0), 0, SnapshotTaken(n, 0), Some(0), 0);
    steps := Along(cfg, c, steps, Decide(0, q, rest), SnapshotTaken(n, 0), Some(0), 0, Admitted, Some(0), 0);
    steps := Along(cfg, c, steps, BumpGlobal(0), Admitted, Some(0), 0, GlobalBumped, Some(0), 1);
    steps := Along(cfg, c, steps, Abort(0, false), GlobalBumped, Some(0), 1, Aborted(true, false), None, 1);
  }

  lemma EmptyRun(cfg: Config)
    ensures Run(cfg, []) == BOOT
  {
  }

  lemma NoLiveRows(cfg: Config, c: string)
    ensures LiveRows(cfg, Alone(c, Locked, Some(0), 0), c) == cfg.stranded(c)
  {
    var t := Task(c, true, Locked, false);
    TallySnoc([], t, Row(c));
    assert [] + [t] == [t];
  }

  lemma Along(cfg: Config, c: string, before: seq<Step>, step: Step,
              pc: Pc, lock: Option<nat>, global: nat, pc': Pc, lock': Option<nat>, global': nat) returns (after: seq<Step>)
    requires Run(cfg, before) == Alone(c, pc, lock, global)
    requires Next(cfg, Alone(c, pc, lock, global), step) == Alone(c, pc', lock', global')
    ensures Run(cfg, after) == Alone(c, pc', lock', global')
  {
    RunSnoc(cfg, before, step);
    after := before + [step];
    hide Run, Next, Alone;
  }
}
