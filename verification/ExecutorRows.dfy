/** Which run rows are unfinished: told from the run's inserts and terminal writes, and what is left at rest. */
module ExecutorRows {
  import opened ExecutorModel
  import opened ExecutorRuns
  import ExecutorLimits

  /** The arrivals of a run, in order: each makes a task. */
  function Arrivals(steps: seq<Step>): seq<(string, bool)> {
    if steps == [] then []
    else
      Arrivals(steps[..|steps| - 1])
      + if steps[|steps| - 1].Arrive? then [(steps[|steps| - 1].cron, steps[|steps| - 1].manual)] else []
  }

  /** The step inserts task `i`'s run row: an insert that worked, or one that inserted and then failed or was cut off. */
  predicate Inserts(s: Exec, step: Step, i: nat) {
    At(s, i, BothBumped)
    && ((step.CreateRow? && step.i == i && (step.ok || step.inserted))
        || (step.Abort? && step.i == i && step.inserted && s.tasks[i].manual))
  }

  /** The step makes task `i`'s row terminal: a spawn failure or a run's end that could be written. */
  predicate Finishes(s: Exec, step: Step, i: nat) {
    || (step == SpawnFail(i, true) && At(s, i, RowWritten))
    || (step == FinishRun(i, true) && At(s, i, Watching))
  }

  /** Task `i`'s row was inserted in the course of the run and not finished since. */
  predicate Unfinished(cfg: Config, steps: seq<Step>, i: nat) {
    |steps| > 0
    && var s, last := Run(cfg, steps[..|steps| - 1]), steps[|steps| - 1];
       Inserts(s, last, i) || (Unfinished(cfg, steps[..|steps| - 1], i) && !Finishes(s, last, i))
  }

  /**
   The step leaves task `i`'s row unfinished for good: an insert that inserted and failed, a terminal
   write that could not be made, or a cut-off with the row inserted.
   */
  predicate Strands(s: Exec, step: Step, i: nat) {
    || (step == CreateRow(i, false, true) && At(s, i, BothBumped))
    || (step == SpawnFail(i, false) && At(s, i, RowWritten))
    || (step == FinishRun(i, false) && At(s, i, Watching))
    || (step.Abort? && step.i == i && i < |s.tasks| && s.tasks[i].manual
        && (s.tasks[i].pc.RowWritten? || (s.tasks[i].pc.BothBumped? && step.inserted)))
  }

  predicate Stranded(cfg: Config, steps: seq<Step>, i: nat) {
    |steps| > 0
    && (Strands(Run(cfg, steps[..|steps| - 1]), steps[|steps| - 1], i) || Stranded(cfg, steps[..|steps| - 1], i))
  }

  predicate RowPending(pc: Pc) {
    pc.RowWritten? || pc.Watching?
  }

  predicate BeforeRow(pc: Pc) {
    pc.Waiting? || pc.Locked? || pc.RowsRead? || pc.SnapshotTaken? || pc.Admitted? || pc.GlobalBumped? || pc.BothBumped?
  }

  /** A task's row is unfinished while its run is watched, and after that just when it was stranded. */
  predicate RowFate(t: Task, stranded: bool) {
    && (RowPending(t.pc) ==> t.rowLive && !stranded)
    && (BeforeRow(t.pc) ==> !t.rowLive && !stranded)
    && (!RowPending(t.pc) && !BeforeRow(t.pc) ==> (t.rowLive <==> stranded))
  }

  lemma StepKeepsFate(cfg: Config, s: Exec, step: Step, i: nat, stranded: bool)
    requires if i < |s.tasks| then RowFate(s.tasks[i], stranded) else !stranded
    ensures var stranded' := Strands(s, step, i) || stranded;
            if i < |Next(cfg, s, step).tasks| then RowFate(Next(cfg, s, step).tasks[i], stranded') else !stranded'
  {
    hide Evaluate, FreeSlot, BumpSlot, LiveRows;
    if !step.Arrive? && Who(step) != i {
      StepMovesOne(cfg, s, step);
      hide Next;
    }
  }

  lemma {:induction false} RunKeepsFate(cfg: Config, steps: seq<Step>, i: nat)
    ensures if i < |Run(cfg, steps).tasks| then RowFate(Run(cfg, steps).tasks[i], Stranded(cfg, steps, i))
            else !Stranded(cfg, steps, i)
  {
    if |steps| > 0 {
      var front := steps[..|steps| - 1];
      RunKeepsFate(cfg, front, i);
      StepKeepsFate(cfg, Run(cfg, front), steps[|steps| - 1], i, Stranded(cfg, front, i));
      hide Next, Strands, RowFate;
    }
  }

  lemma StepWritesRow(cfg: Config, s: Exec, step: Step, i: nat, open: bool)
    requires if i < |s.tasks| then s.tasks[i].rowLive == open && (BeforeRow(s.tasks[i].pc) ==> !open) else !open
    ensures var open' := Inserts(s, step, i) || (open && !Finishes(s, step, i));
            if i < |Next(cfg, s, step).tasks| then Next(cfg, s, step).tasks[i].rowLive == open' else !open'
  {
    hide Evaluate, FreeSlot, BumpSlot, LiveRows;
    if !step.Arrive? && Who(step) != i {
      StepMovesOne(cfg, s, step);
      hide Next;
    }
  }

  /** In every run a task's row is unfinished if and only if it was inserted and no terminal write of it has been persisted since. */
  lemma {:induction false} RowIsUnfinishedIff(cfg: Config, steps: seq<Step>, i: nat)
    ensures if i < |Run(cfg, steps).tasks| then Run(cfg, steps).tasks[i].rowLive == Unfinished(cfg, steps, i)
            else !Unfinished(cfg, steps, i)
  {
    if |steps| > 0 {
      var front := steps[..|steps| - 1];
      RowIsUnfinishedIff(cfg, front, i);
      RunKeepsFate(cfg, front, i);
      StepWritesRow(cfg, Run(cfg, front), steps[|steps| - 1], i, Unfinished(cfg, front, i));
      hide Next, Inserts, Finishes, Stranded;
    }
  }

  lemma StepArrives(cfg: Config, s: Exec, step: Step)
    ensures var s' := Next(cfg, s, step);
            && |s'.tasks| == |s.tasks| + (if step.Arrive? then 1 else 0)
            && (forall i :: 0 <= i < |s.tasks| ==> s'.tasks[i].cron == s.tasks[i].cron && s'.tasks[i].manual == s.tasks[i].manual)
            && (step.Arrive? ==> s'.tasks[|s.tasks|].cron == step.cron && s'.tasks[|s.tasks|].manual == step.manual)
  {
    hide Evaluate, FreeSlot, BumpSlot, LiveRows;
  }

  /** The i-th task is the i-th arrival: its cron and whether it is a manual run never change. */
  lemma {:induction false} TasksAreArrivals(cfg: Config, steps: seq<Step>)
    ensures |Run(cfg, steps).tasks| == |Arrivals(steps)|
    ensures forall i :: 0 <= i < |Arrivals(steps)| ==>
              Run(cfg, steps).tasks[i].cron == Arrivals(steps)[i].0 && Run(cfg, steps).tasks[i].manual == Arrivals(steps)[i].1
  {
    if |steps| > 0 {
      TasksAreArrivals(cfg, steps[..|steps| - 1]);
      StepArrives(cfg, Run(cfg, steps[..|steps| - 1]), steps[|steps| - 1]);
      hide Next;
    }
  }

  /** The runs of cron `c` among the first `n` arrivals whose row was inserted and not finished. */
  function OpenRows(cfg: Config, steps: seq<Step>, c: string, n: nat): nat
    requires n <= |Arrivals(steps)|
  {
    if n == 0 then 0
    else OpenRows(cfg, steps, c, n - 1) + if Arrivals(steps)[n - 1].0 == c && Unfinished(cfg, steps, n - 1) then 1 else 0
  }

  lemma {:induction false} TallyIsOpenRows(cfg: Config, steps: seq<Step>, c: string, n: nat)
    requires n <= |Arrivals(steps)| == |Run(cfg, steps).tasks|
    ensures Tally(Run(cfg, steps).tasks[..n], Row(c)) == OpenRows(cfg, steps, c, n)
  {
    hide Run, Arrivals, Unfinished;
    if n > 0 {
      TallyIsOpenRows(cfg, steps, c, n - 1);
      RowIsUnfinishedIff(cfg, steps, n - 1);
      TasksAreArrivals(cfg, steps);
      assert Run(cfg, steps).tasks[..n][..n - 1] == Run(cfg, steps).tasks[..n - 1];
    }
  }

  /** What the gate counts for a cron: the rows stranded by an earlier daemon and those inserted and not finished by this one. */
  lemma LiveRowsAre(cfg: Config, steps: seq<Step>, c: string)
    ensures LiveRows(cfg, Run(cfg, steps), c) == cfg.stranded(c) + OpenRows(cfg, steps, c, |Arrivals(steps)|)
  {
    TasksAreArrivals(cfg, steps);
    TallyIsOpenRows(cfg, steps, c, |Arrivals(steps)|);
    assert Run(cfg, steps).tasks[..|Arrivals(steps)|] == Run(cfg, steps).tasks;
    hide Run, Tally, OpenRows;
  }

  // At rest.

  /**
   With nothing under way, the rows counted for a cron are those an earlier daemon stranded, exactly
   when no run of it had its insert or its terminal write fail half-way or was cut off with its row inserted.
   */
  lemma RowsAtRestIff(cfg: Config, steps: seq<Step>, c: string)
    requires AtRest(Run(cfg, steps))
    ensures LiveRows(cfg, Run(cfg, steps), c) == cfg.stranded(c)
            <==> forall i :: 0 <= i < |Arrivals(steps)| && Arrivals(steps)[i].0 == c ==> !Stranded(cfg, steps, i)
  {
    var s := Run(cfg, steps);
    TasksAreArrivals(cfg, steps);
    hide Run, Arrivals, Tally, Stranded;
    forall i | 0 <= i < |s.tasks| ensures s.tasks[i].rowLive <==> Stranded(cfg, steps, i) {
      RunKeepsFate(cfg, steps, i);
    }
    if i :| 0 <= i < |s.tasks| && s.tasks[i].cron == c && Stranded(cfg, steps, i) {
      TallyHas(s.tasks, i, Row(c));
    } else {
      TallyNone(s.tasks, Row(c));
    }
  }

  /** Every write of a run's row worked, or failed without a trace, and no manual run was cut off. */
  predicate AllPersisted(steps: seq<Step>) {
    forall k :: 0 <= k < |steps| ==> Persisted(steps[k])
  }

  predicate Persisted(step: Step) {
    match step
    case CreateRow(_, ok, inserted) => ok || !inserted
    case SpawnFail(_, persisted) => persisted
    case FinishRun(_, persisted) => persisted
    case Abort(_, _) => false
    case _ => true
  }

  lemma {:induction false} NothingStranded(cfg: Config, steps: seq<Step>, i: nat)
    requires AllPersisted(steps)
    ensures !Stranded(cfg, steps, i)
  {
    if |steps| > 0 {
      NothingStranded(cfg, steps[..|steps| - 1], i);
      assert Persisted(steps[|steps| - 1]);
      hide Run;
    }
  }

  /** When all writes work and nothing is cut off, every run gives its row back: at rest only the stranded rows count. */
  lemma RowsGivenBack(cfg: Config, steps: seq<Step>, c: string)
    requires AtRest(Run(cfg, steps)) && AllPersisted(steps)
    ensures LiveRows(cfg, Run(cfg, steps), c) == cfg.stranded(c)
  {
    hide Run, Arrivals, Stranded, LiveRows, AllPersisted;
    forall i: nat ensures !Stranded(cfg, steps, i) {
      NothingStranded(cfg, steps, i);
    }
    RowsAtRestIff(cfg, steps, c);
  }

  /**
   So a cron is never refused for runs that are over: at rest, with nothing stranded and nothing cut
   off, the gate admits it whenever it is enabled, its two limits are not zero, and neither backoff,
   load, daily count nor budget objects.
   */
  lemma AdmittedAtRest(cfg: Config, steps: seq<Step>, c: string, q: CronQuota, rest: Snapshot)
    requires |Run(cfg, steps).tasks| <= U32_MAX && AtRest(Run(cfg, steps)) && AllPersisted(steps)
    requires cfg.stranded(c) == 0 && q.maxConcurrentRuns > 0
    ensures var s := Run(cfg, steps);
            Evaluate(q, cfg.global, rest.(runningForCron := LiveRows(cfg, s, c), runningGlobal := s.global)).Admit? <==>
              && q.enabled && rest.windowRuns < q.maxRunsPerDay
              && (rest.retryAfter.Some? ==> rest.retryAfter.value <= rest.now)
              && (cfg.global.cpuLoadThrottle.Some? && rest.loadavg.Some? ==> rest.loadavg.value <= cfg.global.cpuLoadThrottle.value)
              && (q.budgetPerDay.Some? && q.budgetPerDay.value >= 0.0 ==> rest.windowCost < q.budgetPerDay.value)
  {
    hide Run, LiveRows, AllPersisted, AtRest, Evaluate;
    var s := Run(cfg, steps);
    RowsGivenBack(cfg, steps, c);
    NoLeaks(cfg, steps);
    QuiescentIsEmptyIff(cfg, steps);
    ExecutorLimits.AdmitsIff(q, cfg.global, rest.(runningForCron := LiveRows(cfg, s, c), runningGlobal := s.global));
  }

  lemma {:induction false} NoLeaks(cfg: Config, steps: seq<Step>)
    requires AllPersisted(steps)
    ensures forall i :: 0 <= i < |Run(cfg, steps).tasks| ==> !Leaks(Run(cfg, steps).tasks[i])
    ensures forall i :: 0 <= i < |Run(cfg, steps).tasks| ==> !Run(cfg, steps).tasks[i].pc.Aborted?
  {
    if |steps| > 0 {
      NoLeaks(cfg, steps[..|steps| - 1]);
      assert Persisted(steps[|steps| - 1]);
      NothingCutOff(cfg, Run(cfg, steps[..|steps| - 1]), steps[|steps| - 1]);
      hide Next;
    }
  }

  lemma NothingCutOff(cfg: Config, s: Exec, step: Step)
    requires !step.Abort? && forall i :: 0 <= i < |s.tasks| ==> !s.tasks[i].pc.Aborted?
    ensures forall i :: 0 <= i < |Next(cfg, s, step).tasks| ==> !Next(cfg, s, step).tasks[i].pc.Aborted?
  {
    hide Evaluate, FreeSlot, BumpSlot, LiveRows;
  }
}
