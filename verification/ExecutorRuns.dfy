/** Admission limits, slot conservation and exactly-once release, in every interleaving. */
module ExecutorRuns {
  import opened Wrappers
  import opened ExecutorModel

  function Who(step: Step): nat {
    match step
    case Arrive(_, _) => 0
    case Acquire(i) => i
    case GiveUp(i) => i
    case ReadRows(i) => i
    case ReadGlobal(i) => i
    case Decide(i, _, _) => i
    case BumpGlobal(i) => i
    case BumpCron(i) => i
    case CreateRow(i, _, _) => i
    case SpawnOk(i) => i
    case SpawnFail(i, _) => i
    case FinishRun(i, _) => i
    case FreeGlobal(i) => i
    case FreeCron(i) => i
    case Abort(i, _) => i
  }

  /** A step moves one task and leaves the others alone. */
  lemma StepMovesOne(cfg: Config, s: Exec, step: Step)
    requires !step.Arrive?
    ensures Who(step) >= |s.tasks| ==> Next(cfg, s, step) == s
    ensures Who(step) < |s.tasks| ==>
              && |Next(cfg, s, step).tasks| == |s.tasks|
              && Next(cfg, s, step).tasks == s.tasks[Who(step) := Next(cfg, s, step).tasks[Who(step)]]
              && Next(cfg, s, step).tasks[Who(step)].cron == s.tasks[Who(step)].cron
  {
    hide Evaluate, FreeSlot, BumpSlot, LiveRows;
  }

  lemma {:induction false} TallyUpdate(ts: seq<Task>, i: nat, t: Task, k: Kind)
    requires i < |ts|
    ensures Tally(ts[i := t], k) == Tally(ts, k) - One(k, ts[i]) + One(k, t)
  {
    hide Counts;
    var n := |ts| - 1;
    if i == n {
      assert ts[i := t][..n] == ts[..n];
    } else {
      TallyUpdate(ts[..n], i, t, k);
      assert ts[i := t][..n] == ts[..n][i := t];
    }
  }

  lemma TallySnoc(ts: seq<Task>, t: Task, k: Kind)
    ensures Tally(ts + [t], k) == Tally(ts, k) + One(k, t)
  {
    assert (ts + [t])[..|ts|] == ts;
  }

  lemma {:induction false} TallyBound(ts: seq<Task>, k: Kind)
    ensures Tally(ts, k) <= |ts|
  {
    if |ts| > 0 {
      TallyBound(ts[..|ts| - 1], k);
    }
  }

  lemma {:induction false} TallyHas(ts: seq<Task>, i: nat, k: Kind)
    requires i < |ts| && Counts(k, ts[i])
    ensures Tally(ts, k) > 0
  {
    hide Counts;
    if i < |ts| - 1 {
      TallyHas(ts[..|ts| - 1], i, k);
    }
  }

  /** How a step changes a tally: the moved task's share, or a newcomer's, which is nothing. */
  lemma TallyStep(cfg: Config, s: Exec, step: Step, k: Kind)
    ensures step.Arrive? ==> Tally(Next(cfg, s, step).tasks, k) == Tally(s.tasks, k)
    ensures !step.Arrive? && Who(step) < |s.tasks| ==>
              && |Next(cfg, s, step).tasks| == |s.tasks|
              && Tally(Next(cfg, s, step).tasks, k)
                 == Tally(s.tasks, k) - One(k, s.tasks[Who(step)]) + One(k, Next(cfg, s, step).tasks[Who(step)])
  {
    if step.Arrive? {
      TallySnoc(s.tasks, Task(step.cron, step.manual, Waiting, false), k);
    } else {
      hide Next, Counts, Tally;
      StepMovesOne(cfg, s, step);
      if Who(step) < |s.tasks| {
        TallyUpdate(s.tasks, Who(step), Next(cfg, s, step).tasks[Who(step)], k);
      }
    }
  }

  /** The lock's holder is the one task in the admission section. */
  predicate LockOk(s: Exec) {
    && (forall i :: 0 <= i < |s.tasks| && HoldsLock(s.tasks[i].pc) ==> s.lock == Some(i))
    && (s.lock.Some? ==> s.lock.value < |s.tasks| && HoldsLock(s.tasks[s.lock.value].pc))
  }

  /** The lock is taken by whichever task enters the section and given back when it leaves. */
  lemma LockMoves(cfg: Config, s: Exec, step: Step)
    requires !step.Arrive? && Who(step) < |s.tasks|
    ensures |Next(cfg, s, step).tasks| == |s.tasks|
    ensures var i := Who(step);
            var before, after := HoldsLock(s.tasks[i].pc), HoldsLock(Next(cfg, s, step).tasks[i].pc);
            && (after && !before ==> s.lock == None && Next(cfg, s, step).lock == Some(i))
            && (before && !after ==> Next(cfg, s, step).lock == None)
            && (before == after ==> Next(cfg, s, step).lock == s.lock)
  {
    hide Evaluate, FreeSlot, BumpSlot, LiveRows;
  }

  lemma StepKeepsLock(cfg: Config, s: Exec, step: Step)
    requires LockOk(s)
    ensures LockOk(Next(cfg, s, step))
  {
    if !step.Arrive? {
      hide Next, HoldsLock;
      StepMovesOne(cfg, s, step);
      if Who(step) < |s.tasks| {
        LockMoves(cfg, s, step);
      }
    }
  }

  /** In every run the admission section holds one task at a time. */
  lemma {:induction false} LockHolds(cfg: Config, steps: seq<Step>)
    ensures LockOk(Run(cfg, steps))
  {
    if |steps| == 0 {
    } else {
      LockHolds(cfg, steps[..|steps| - 1]);
      StepKeepsLock(cfg, Run(cfg, steps[..|steps| - 1]), steps[|steps| - 1]);
      hide LockOk, Next;
    }
  }

  // Conservation.

  predicate GlobalOk(s: Exec) {
    s.global == Tally(s.tasks, Global)
  }

  predicate SlotOk(s: Exec, c: string) {
    SlotsOf(s.perCron, c) == Tally(s.tasks, Slot(c)) && (c in s.perCron ==> s.perCron[c] > 0)
  }

  lemma StepKeepsGlobal(cfg: Config, s: Exec, step: Step)
    requires GlobalOk(s) && |s.tasks| <= U32_MAX
    ensures GlobalOk(Next(cfg, s, step))
  {
    TallyStep(cfg, s, step, Global);
    TallyBound(s.tasks, Global);
    TallyBound(Next(cfg, s, step).tasks, Global);
    hide Tally, Evaluate, LiveRows, FreeSlot, BumpSlot;
    if !step.Arrive? && Who(step) < |s.tasks| && HoldsGlobal(s.tasks[Who(step)].pc) {
      TallyHas(s.tasks, Who(step), Global);
    }
  }

  lemma StepKeepsSlot(cfg: Config, s: Exec, step: Step, c: string)
    requires SlotOk(s, c) && |s.tasks| <= U32_MAX
    ensures SlotOk(Next(cfg, s, step), c)
  {
    TallyStep(cfg, s, step, Slot(c));
    TallyBound(s.tasks, Slot(c));
    TallyBound(Next(cfg, s, step).tasks, Slot(c));
    hide Tally, Evaluate, LiveRows;
    if !step.Arrive? && Who(step) < |s.tasks| && Counts(Slot(c), s.tasks[Who(step)]) {
      TallyHas(s.tasks, Who(step), Slot(c));
    }
  }

  lemma TasksGrow(cfg: Config, s: Exec, step: Step)
    ensures |s.tasks| <= |Next(cfg, s, step).tasks| <= |s.tasks| + 1
  {
    hide Evaluate, FreeSlot, BumpSlot, LiveRows;
  }

  /** Each counter is the number of tasks that hold it, in every reachable state of fewer than 2^32 tasks. */
  lemma {:induction false} CountersAreHolders(cfg: Config, steps: seq<Step>, c: string)
    requires |Run(cfg, steps).tasks| <= U32_MAX
    ensures GlobalOk(Run(cfg, steps)) && SlotOk(Run(cfg, steps), c)
  {
    if |steps| == 0 {
    } else {
      var s := Run(cfg, steps[..|steps| - 1]);
      TasksGrow(cfg, s, steps[|steps| - 1]);
      CountersAreHolders(cfg, steps[..|steps| - 1], c);
      StepKeepsGlobal(cfg, s, steps[|steps| - 1]);
      StepKeepsSlot(cfg, s, steps[|steps| - 1], c);
      hide GlobalOk, SlotOk, Next;
    }
  }

  /** The sum of a map's values. */
  ghost function Total(m: map<string, nat>): nat
    decreases |m|
  {
    if m == map[] then 0
    else
      var c :| c in m;
      m[c] + Total(m - {c})
  }

  lemma {:induction false} TotalSplit(m: map<string, nat>, c: string)
    requires c in m
    ensures Total(m) == m[c] + Total(m - {c})
    decreases |m|
  {
    var d :| d in m && Total(m) == m[d] + Total(m - {d});
    if d != c {
      TotalSplit(m - {d}, c);
      TotalSplit(m - {c}, d);
      assert m - {d} - {c} == m - {c} - {d};
    }
  }

  lemma TotalUpdate(m: map<string, nat>, c: string, n: nat)
    ensures Total(m[c := n]) == Total(m) - SlotsOf(m, c) + n
    ensures Total(m - {c}) == Total(m) - SlotsOf(m, c)
  {
    TotalSplit(m[c := n], c);
    assert m[c := n] - {c} == m - {c};
    if c in m {
      TotalSplit(m, c);
    } else {
      assert m - {c} == m;
    }
  }

  lemma TotalStep(cfg: Config, s: Exec, step: Step)
    requires !step.Arrive? && Who(step) < |s.tasks|
    ensures var c := s.tasks[Who(step)].cron;
            Total(Next(cfg, s, step).perCron)
            == Total(s.perCron) - SlotsOf(s.perCron, c) + SlotsOf(Next(cfg, s, step).perCron, c)
  {
    hide Total, Evaluate, LiveRows, SaturatingIncrement;
    var c, m := s.tasks[Who(step)].cron, s.perCron;
    TotalUpdate(m, c, SaturatingIncrement(SlotsOf(m, c)));
    TotalUpdate(m, c, SaturatingSub(SlotsOf(m, c), 1));
  }

  lemma StepKeepsTotal(cfg: Config, s: Exec, step: Step)
    requires Total(s.perCron) == Tally(s.tasks, AnySlot) && |s.tasks| <= U32_MAX
    requires forall c :: SlotOk(s, c)
    ensures Total(Next(cfg, s, step).perCron) == Tally(Next(cfg, s, step).tasks, AnySlot)
  {
    TallyStep(cfg, s, step, AnySlot);
    if !step.Arrive? && Who(step) < |s.tasks| {
      var c := s.tasks[Who(step)].cron;
      TallyStep(cfg, s, step, Slot(c));
      StepKeepsSlot(cfg, s, step, c);
      TotalStep(cfg, s, step);
      StepMovesOne(cfg, s, step);
      assert SlotOk(s, c);
    } else {
      StepMovesNone(cfg, s, step);
    }
    hide Next, Tally, Total, HoldsSlot, HoldsGlobal;
  }

  lemma StepMovesNone(cfg: Config, s: Exec, step: Step)
    requires step.Arrive? || Who(step) >= |s.tasks|
    ensures Next(cfg, s, step).perCron == s.perCron
    ensures !step.Arrive? ==> Next(cfg, s, step) == s
  {
    if !step.Arrive? {
      StepMovesOne(cfg, s, step);
    }
  }

  lemma {:induction false} TotalIsSlotHolders(cfg: Config, steps: seq<Step>)
    requires |Run(cfg, steps).tasks| <= U32_MAX
    ensures Total(Run(cfg, steps).perCron) == Tally(Run(cfg, steps).tasks, AnySlot)
  {
    if |steps| == 0 {
    } else {
      var s := Run(cfg, steps[..|steps| - 1]);
      TasksGrow(cfg, s, steps[|steps| - 1]);
      TotalIsSlotHolders(cfg, steps[..|steps| - 1]);
      forall c ensures SlotOk(s, c) {
        CountersAreHolders(cfg, steps[..|steps| - 1], c);
      }
      StepKeepsTotal(cfg, s, steps[|steps| - 1]);
      hide SlotOk, Next;
    }
  }

  lemma {:induction false} HoldersDiffer(ts: seq<Task>)
    ensures Tally(ts, Global) - Tally(ts, AnySlot) == Tally(ts, BetweenBumps) - Tally(ts, BetweenFrees)
  {
    if |ts| > 0 {
      HoldersDiffer(ts[..|ts| - 1]);
    }
  }

  /**
   Slot conservation: the global counter exceeds the per-cron counters' sum by those tasks between
   their two bumps, less those between their two frees; no entry is ever zero.
   */
  lemma SlotsConserved(cfg: Config, steps: seq<Step>)
    requires |Run(cfg, steps).tasks| <= U32_MAX
    ensures var s := Run(cfg, steps);
            && s.global - Total(s.perCron) == Tally(s.tasks, BetweenBumps) - Tally(s.tasks, BetweenFrees)
            && forall c :: c in s.perCron ==> s.perCron[c] > 0
  {
    hide Run, Tally, Total;
    var s := Run(cfg, steps);
    TotalIsSlotHolders(cfg, steps);
    HoldersDiffer(s.tasks);
    forall c | c in s.perCron ensures s.perCron[c] > 0 {
      CountersAreHolders(cfg, steps, c);
    }
    CountersAreHolders(cfg, steps, "");
  }

  lemma {:induction false} TallyNone(ts: seq<Task>, k: Kind)
    requires forall i :: 0 <= i < |ts| ==> !Counts(k, ts[i])
    ensures Tally(ts, k) == 0
  {
    hide Counts;
    if |ts| > 0 {
      TallyNone(ts[..|ts| - 1], k);
    }
  }

  /** Nothing is under way: every task is over or has not entered. */
  predicate AtRest(s: Exec) {
    forall i :: 0 <= i < |s.tasks| ==> s.tasks[i].pc.Waiting? || s.tasks[i].pc.Done? || s.tasks[i].pc.Aborted?
  }

  /** The task was cut off while it held something. */
  predicate Leaks(t: Task) {
    t.pc.Aborted? && (t.pc.holdsGlobal || t.pc.holdsSlot)
  }

  lemma EmptyMeansNone(s: Exec, i: nat)
    requires i < |s.tasks| && GlobalOk(s) && SlotOk(s, s.tasks[i].cron) && s.global == 0 && s.perCron == map[]
    ensures !HoldsGlobal(s.tasks[i].pc) && !HoldsSlot(s.tasks[i].pc)
  {
    var t := s.tasks[i];
    if HoldsGlobal(t.pc) { TallyHas(s.tasks, i, Global); }
    if HoldsSlot(t.pc) { TallyHas(s.tasks, i, Slot(t.cron)); }
    hide Tally, HoldsGlobal, HoldsSlot;
  }

  /** At rest both counters are empty exactly when no manual run was cut off while it held something. */
  lemma QuiescentIsEmptyIff(cfg: Config, steps: seq<Step>)
    requires |Run(cfg, steps).tasks| <= U32_MAX && AtRest(Run(cfg, steps))
    ensures var s := Run(cfg, steps);
            s.global == 0 && s.perCron == map[] <==> forall i :: 0 <= i < |s.tasks| ==> !Leaks(s.tasks[i])
  {
    hide Run, Tally;
    var s := Run(cfg, steps);
    CountersAreHolders(cfg, steps, "");
    if s.global == 0 && s.perCron == map[] {
      forall i | 0 <= i < |s.tasks| ensures !Leaks(s.tasks[i]) {
        CountersAreHolders(cfg, steps, s.tasks[i].cron);
        EmptyMeansNone(s, i);
      }
    }
    if forall i :: 0 <= i < |s.tasks| ==> !Leaks(s.tasks[i]) {
      TallyNone(s.tasks, Global);
      forall c ensures c !in s.perCron {
        TallyNone(s.tasks, Slot(c));
        CountersAreHolders(cfg, steps, c);
      }
    }
  }

  /** A task of the executor's own is never cut off. */
  lemma {:induction false} OnlyManualRunsAbort(cfg: Config, steps: seq<Step>, i: nat)
    ensures i < |Run(cfg, steps).tasks| && Run(cfg, steps).tasks[i].pc.Aborted? ==> Run(cfg, steps).tasks[i].manual
  {
    if |steps| > 0 {
      OnlyManualRunsAbort(cfg, steps[..|steps| - 1], i);
      AbortsManual(cfg, Run(cfg, steps[..|steps| - 1]), steps[|steps| - 1], i);
      hide Next;
    }
  }

  lemma AbortsManual(cfg: Config, s: Exec, step: Step, i: nat)
    requires i < |s.tasks| && s.tasks[i].pc.Aborted? ==> s.tasks[i].manual
    ensures i < |Next(cfg, s, step).tasks| && Next(cfg, s, step).tasks[i].pc.Aborted? ==> Next(cfg, s, step).tasks[i].manual
  {
    hide Evaluate, FreeSlot, BumpSlot, LiveRows;
    if !step.Arrive? && Who(step) != i {
      StepMovesOne(cfg, s, step);
      hide Next;
    }
  }

  /** No decrement of either counter ever meets a zero, and no bump meets the top of the range. */
  lemma NothingSaturates(cfg: Config, steps: seq<Step>, step: Step)
    requires |Run(cfg, steps).tasks| <= U32_MAX
    requires Who(step) < |Run(cfg, steps).tasks|
    ensures var s := Run(cfg, steps);
            var t := s.tasks[Who(step)];
            && (step.FreeGlobal? && Next(cfg, s, step) != s ==> s.global > 0)
            && (step.FreeCron? && Next(cfg, s, step) != s ==> t.cron in s.perCron && s.perCron[t.cron] > 0)
            && (step.BumpGlobal? && Next(cfg, s, step) != s ==> s.global < U32_MAX)
            && (step.BumpCron? && Next(cfg, s, step) != s ==> SlotsOf(s.perCron, t.cron) < U32_MAX)
  {
    var s := Run(cfg, steps);
    var t := s.tasks[Who(step)];
    hide Run, Evaluate, LiveRows;
    CountersAreHolders(cfg, steps, t.cron);
    if HoldsGlobal(t.pc) { TallyHas(s.tasks, Who(step), Global); }
    if HoldsSlot(t.pc) { TallyHas(s.tasks, Who(step), Slot(t.cron)); }
    if !step.Arrive? {
      TallyStep(cfg, s, step, Global);
      TallyStep(cfg, s, step, Slot(t.cron));
      TallyBound(Next(cfg, s, step).tasks, Global);
      TallyBound(Next(cfg, s, step).tasks, Slot(t.cron));
    }
    hide Tally, FreeSlot;
  }
}
