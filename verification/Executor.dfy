/** The executor's admission section as the source writes it, with the outside world's answers as parameters. */
module Executors {
  import opened Wrappers
  import opened ExecutorModel
  import opened ExecutorRuns
  import ExecutorLimits

  /** How far an admitted run gets; `persisted` says whether the failure could be written to its row. */
  datatype Attempt =
    | InsertFails(inserted: bool)
    | AdapterMissing(persisted: bool)
    | ProjectMissing(persisted: bool)
    | SpawnFails(persisted: bool)
    | Spawns

  datatype AdmitError = Storage | NoAdapter | NoProject | NoSpawn

  /** What a fire comes to. */
  datatype Outcome = Unknown | Refused(why: Decision, audited: bool) | Failed(error: AdmitError) | Started(run: nat)

  /** What a failed attempt is reported as. */
  function ErrorOf(attempt: Attempt): AdmitError
    requires !attempt.Spawns?
  {
    if attempt.InsertFails? then Storage
    else if attempt.AdapterMissing? then NoAdapter
    else if attempt.ProjectMissing? then NoProject
    else NoSpawn
  }

  predicate IsDeferral(d: Decision) {
    d.DeferLoadavg? || d.DeferBackoff?
  }

  /** A run row: its cron, and whether it is unfinished. */
  datatype RunRow = RunRow(cron: string, live: bool)

  function CountLive(rows: seq<RunRow>, c: string): nat {
    if rows == [] then 0
    else CountLive(rows[..|rows| - 1], c) + if rows[|rows| - 1] == RunRow(c, true) then 1 else 0
  }

  // One fire with nothing else in between, as steps of the model.

  /** The newest task enters and takes its snapshot. */
  function Enter(cfg: Config, s: Exec, c: string): Exec {
    var i := |s.tasks|;
    Next(cfg, Next(cfg, Next(cfg, Next(cfg, s, Arrive(c, false)), Acquire(i)), ReadRows(i)), ReadGlobal(i))
  }

  /** It knows no such cron. */
  function Ignore(cfg: Config, s: Exec, c: string): Exec {
    var i := |s.tasks|;
    Next(cfg, Next(cfg, Next(cfg, s, Arrive(c, false)), Acquire(i)), GiveUp(i))
  }

  /** It was admitted: both bumps, the row, and the spawn or the way back. */
  function Carry(cfg: Config, s: Exec, i: nat, attempt: Attempt): Exec {
    var bumped := Next(cfg, Next(cfg, s, BumpGlobal(i)), BumpCron(i));
    match attempt
    case InsertFails(inserted) => Release(cfg, Next(cfg, bumped, CreateRow(i, false, inserted)), i)
    case Spawns => Next(cfg, Next(cfg, bumped, CreateRow(i, true, true)), SpawnOk(i))
    case _ => Release(cfg, Next(cfg, Next(cfg, bumped, CreateRow(i, true, true)), SpawnFail(i, attempt.persisted)), i)
  }

  function Release(cfg: Config, s: Exec, i: nat): Exec {
    Next(cfg, Next(cfg, s, FreeGlobal(i)), FreeCron(i))
  }

  /** The whole fire. */
  function Fire(cfg: Config, s: Exec, c: string, quota: Option<CronQuota>, rest: Snapshot, attempt: Attempt): Exec {
    if quota.None? then Ignore(cfg, s, c)
    else
      var decided := Next(cfg, Enter(cfg, s, c), Decide(|s.tasks|, quota.value, rest));
      if At(decided, |s.tasks|, Admitted) then Carry(cfg, decided, |s.tasks|, attempt) else decided
  }

  /** An executor whose newest task is `t`. */
  function With(ts: seq<Task>, t: Task, lock: Option<nat>, global: nat, perCron: map<string, nat>): Exec {
    Exec(ts + [t], lock, global, perCron)
  }

  lemma ReplaceLast(ts: seq<Task>, t: Task, t': Task)
    ensures (ts + [t])[|ts| := t'] == ts + [t'] && (ts + [t])[|ts|] == t
  {
  }

  lemma IgnoreIs(cfg: Config, s: Exec, c: string)
    requires s.lock.None?
    ensures Ignore(cfg, s, c) == With(s.tasks, Task(c, false, Done, false), None, s.global, s.perCron)
  {
    ReplaceLast(s.tasks, Task(c, false, Waiting, false), Task(c, false, Locked, false));
    ReplaceLast(s.tasks, Task(c, false, Locked, false), Task(c, false, Done, false));
  }

  lemma EnterIs(cfg: Config, s: Exec, c: string)
    requires s.lock.None?
    ensures Enter(cfg, s, c)
            == With(s.tasks, Task(c, false, SnapshotTaken(LiveRows(cfg, s, c), s.global), false), Some(|s.tasks|), s.global, s.perCron)
  {
    var n := LiveRows(cfg, s, c);
    TallySnoc(s.tasks, Task(c, false, Locked, false), Row(c));
    hide Tally;
    ReplaceLast(s.tasks, Task(c, false, Waiting, false), Task(c, false, Locked, false));
    ReplaceLast(s.tasks, Task(c, false, Locked, false), Task(c, false, RowsRead(n), false));
    ReplaceLast(s.tasks, Task(c, false, RowsRead(n), false), Task(c, false, SnapshotTaken(n, s.global), false));
  }

  lemma DecideIs(cfg: Config, ts: seq<Task>, c: string, n: nat, global: nat, m: map<string, nat>, q: CronQuota, rest: Snapshot)
    ensures var t := Task(c, false, SnapshotTaken(n, global), false);
            Next(cfg, With(ts, t, Some(|ts|), global, m), Decide(|ts|, q, rest))
            == if Evaluate(q, cfg.global, rest.(runningForCron := n, runningGlobal := global)).Admit?
               then With(ts, t.(pc := Admitted), Some(|ts|), global, m)
               else With(ts, t.(pc := Done), None, global, m)
  {
    hide Evaluate;
    var t := Task(c, false, SnapshotTaken(n, global), false);
    ReplaceLast(ts, t, t.(pc := Admitted));
    ReplaceLast(ts, t, t.(pc := Done));
  }

  lemma BumpsAre(cfg: Config, ts: seq<Task>, c: string, global: nat, m: map<string, nat>)
    ensures var t := Task(c, false, Admitted, false);
            Next(cfg, Next(cfg, With(ts, t, Some(|ts|), global, m), BumpGlobal(|ts|)), BumpCron(|ts|))
            == With(ts, t.(pc := BothBumped), Some(|ts|), SaturatingIncrement(global), BumpSlot(m, c))
  {
    hide SaturatingIncrement, BumpSlot;
    var t := Task(c, false, Admitted, false);
    ReplaceLast(ts, t, t.(pc := GlobalBumped));
    ReplaceLast(ts, t.(pc := GlobalBumped), t.(pc := BothBumped));
  }

  lemma ReleaseIs(cfg: Config, ts: seq<Task>, t: Task, global: nat, m: map<string, nat>)
    requires t.pc.Failing?
    ensures Release(cfg, With(ts, t, Some(|ts|), global, m), |ts|)
            == With(ts, t.(pc := Done), None, SaturatingSub(global, 1), FreeSlot(m, t.cron))
  {
    hide SaturatingSub, FreeSlot;
    ReplaceLast(ts, t, t.(pc := FailingGlobalFreed));
    ReplaceLast(ts, t.(pc := FailingGlobalFreed), t.(pc := Done));
  }

  /** What the row of an attempt is left as, if there is one. */
  function RowLeft(attempt: Attempt): Option<bool> {
    match attempt
    case InsertFails(inserted) => if inserted then Some(true) else None
    case Spawns => Some(true)
    case _ => Some(!attempt.persisted)
  }

  /** The row is written, or the insert fails. */
  lemma CreateIs(cfg: Config, ts: seq<Task>, c: string, global: nat, m: map<string, nat>, ok: bool, inserted: bool)
    ensures var t := Task(c, false, BothBumped, false);
            Next(cfg, With(ts, t, Some(|ts|), global, m), CreateRow(|ts|, ok, inserted))
            == With(ts, Task(c, false, if ok then RowWritten else Failing, ok || inserted), Some(|ts|), global, m)
  {
    ReplaceLast(ts, Task(c, false, BothBumped, false), Task(c, false, if ok then RowWritten else Failing, ok || inserted));
  }

  /** The session spawns, or it does not. */
  lemma SpawnIs(cfg: Config, ts: seq<Task>, c: string, global: nat, m: map<string, nat>, persisted: bool)
    ensures var s := With(ts, Task(c, false, RowWritten, true), Some(|ts|), global, m);
            && Next(cfg, s, SpawnOk(|ts|)) == With(ts, Task(c, false, Watching, true), None, global, m)
            && Next(cfg, s, SpawnFail(|ts|, persisted)) == With(ts, Task(c, false, Failing, !persisted), Some(|ts|), global, m)
  {
    ReplaceLast(ts, Task(c, false, RowWritten, true), Task(c, false, Failing, !persisted));
    ReplaceLast(ts, Task(c, false, RowWritten, true), Task(c, false, Watching, true));
  }

  lemma CarryFailsAtInsert(cfg: Config, ts: seq<Task>, c: string, global: nat, m: map<string, nat>, inserted: bool)
    requires global < U32_MAX && SlotsOf(m, c) < U32_MAX && (c in m ==> m[c] > 0)
    ensures Carry(cfg, With(ts, Task(c, false, Admitted, false), Some(|ts|), global, m), |ts|, InsertFails(inserted))
            == With(ts, Task(c, false, Done, inserted), None, global, m)
  {
    BumpsAre(cfg, ts, c, global, m);
    BumpThenFree(m, c);
    CreateIs(cfg, ts, c, global + 1, BumpSlot(m, c), false, inserted);
    ReleaseIs(cfg, ts, Task(c, false, Failing, inserted), global + 1, BumpSlot(m, c));
    hide BumpSlot, FreeSlot, Release, Next, With;
  }

  lemma CarryFailsLater(cfg: Config, ts: seq<Task>, c: string, global: nat, m: map<string, nat>, attempt: Attempt)
    requires global < U32_MAX && SlotsOf(m, c) < U32_MAX && (c in m ==> m[c] > 0)
    requires !attempt.InsertFails? && !attempt.Spawns?
    ensures Carry(cfg, With(ts, Task(c, false, Admitted, false), Some(|ts|), global, m), |ts|, attempt)
            == With(ts, Task(c, false, Done, !attempt.persisted), None, global, m)
  {
    BumpsAre(cfg, ts, c, global, m);
    BumpThenFree(m, c);
    CreateIs(cfg, ts, c, global + 1, BumpSlot(m, c), true, true);
    SpawnIs(cfg, ts, c, global + 1, BumpSlot(m, c), attempt.persisted);
    ReleaseIs(cfg, ts, Task(c, false, Failing, !attempt.persisted), global + 1, BumpSlot(m, c));
    hide BumpSlot, FreeSlot, Release, Next, With;
  }

  lemma CarrySpawns(cfg: Config, ts: seq<Task>, c: string, global: nat, m: map<string, nat>)
    requires global < U32_MAX
    ensures Carry(cfg, With(ts, Task(c, false, Admitted, false), Some(|ts|), global, m), |ts|, Spawns)
            == With(ts, Task(c, false, Watching, true), None, global + 1, BumpSlot(m, c))
  {
    BumpsAre(cfg, ts, c, global, m);
    CreateIs(cfg, ts, c, global + 1, BumpSlot(m, c), true, true);
    SpawnIs(cfg, ts, c, global + 1, BumpSlot(m, c), true);
    hide BumpSlot, Next, With;
  }

  lemma CarryIs(cfg: Config, ts: seq<Task>, c: string, global: nat, m: map<string, nat>, attempt: Attempt)
    requires global < U32_MAX && SlotsOf(m, c) < U32_MAX && (c in m ==> m[c] > 0)
    ensures Carry(cfg, With(ts, Task(c, false, Admitted, false), Some(|ts|), global, m), |ts|, attempt)
            == if attempt.Spawns? then With(ts, Task(c, false, Watching, true), None, global + 1, BumpSlot(m, c))
               else With(ts, Task(c, false, Done, RowLeft(attempt) == Some(true)), None, global, m)
  {
    hide Carry, BumpSlot, With;
    if attempt.InsertFails? {
      CarryFailsAtInsert(cfg, ts, c, global, m, attempt.inserted);
    } else if attempt.Spawns? {
      CarrySpawns(cfg, ts, c, global, m);
    } else {
      CarryFailsLater(cfg, ts, c, global, m, attempt);
    }
  }

  function RowsWith(rows: seq<RunRow>, c: string, row: Option<bool>): seq<RunRow> {
    match row case None => rows case Some(live) => rows + [RunRow(c, live)]
  }

  /** Rows and tasks count the same for every cron. */
  ghost predicate SameCounts(rows: seq<RunRow>, ts: seq<Task>) {
    forall c :: CountLive(rows, c) == Tally(ts, Row(c))
  }

  class Executor {
    const cfg: Config
    const counters: Counters
    var rows: seq<RunRow>
    var audits: seq<(string, Decision)>
    ghost var tasks: seq<Task>

    constructor (cfg: Config)
      ensures this.cfg == cfg && fresh(counters) && Linked() && View() == BOOT && audits == []
    {
      this.cfg := cfg;
      counters := new Counters();
      rows, audits, tasks := [], [], [];
    }

    /** The executor between fires: nobody in the admission section. */
    ghost function View(): Exec
      reads this, counters
    {
      Exec(tasks, None, counters.runningGlobal, counters.runningPerCron)
    }

    /** The rows of this daemon's runs are its tasks' rows. */
    ghost predicate Linked()
      reads this
    {
      SameCounts(rows, tasks)
    }

    /** Both counters as they should be: no empty entry, and room for one more. */
    predicate Sound(c: string)
      reads this, counters
    {
      && counters.runningGlobal < U32_MAX && SlotsOf(counters.runningPerCron, c) < U32_MAX
      && (c in counters.runningPerCron ==> counters.runningPerCron[c] > 0)
    }

    method DecrementGlobalAndCron(c: string)
      modifies counters
      ensures counters.runningGlobal == SaturatingSub(old(counters.runningGlobal), 1)
      ensures counters.runningPerCron == FreeSlot(old(counters.runningPerCron), c)
    {
      counters.DecrementGlobal();
      counters.DecrementForCron(c);
    }

    /** Every failure path gives back exactly what was taken; only a spawned run keeps its slot and its live row. */
    method AdmitAndSpawn(c: string, attempt: Attempt) returns (r: Result<nat, AdmitError>)
      requires Sound(c)
      modifies this`rows, counters
      ensures r.Ok? <==> attempt.Spawns?
      ensures r.Err? ==> r.error == ErrorOf(attempt)
      ensures r.Err? ==>
                counters.runningGlobal == old(counters.runningGlobal)
                && counters.runningPerCron == old(counters.runningPerCron)
      ensures r.Ok? ==>
                && counters.runningGlobal == old(counters.runningGlobal) + 1
                && counters.runningPerCron == BumpSlot(old(counters.runningPerCron), c)
                && r.value == |old(rows)|
      ensures rows == RowsWith(old(rows), c, RowLeft(attempt))
    {
      ghost var before := counters.runningPerCron;
      counters.BumpGlobalCount();
      counters.BumpRunningForCron(c);
      BumpThenFree(before, c);
      hide BumpSlot, FreeSlot;
      if attempt.InsertFails? {
        if attempt.inserted {
          rows := rows + [RunRow(c, true)];
        }
        DecrementGlobalAndCron(c);
        return Err(Storage);
      }
      var run := |rows|;
      rows := rows + [RunRow(c, true)];
      match attempt {
        case AdapterMissing(persisted) =>
          rows := rows[run := RunRow(c, !persisted)];
          DecrementGlobalAndCron(c);
          return Err(NoAdapter);
        case ProjectMissing(persisted) =>
          rows := rows[run := RunRow(c, !persisted)];
          DecrementGlobalAndCron(c);
          return Err(NoProject);
        case SpawnFails(persisted) =>
          rows := rows[run := RunRow(c, !persisted)];
          DecrementGlobalAndCron(c);
          return Err(NoSpawn);
        case Spawns =>
          return Ok(run);
      }
    }

    /** What the gate sees of a cron. */
    ghost function Seen(c: string, rest: Snapshot): Snapshot
      reads this, counters
    {
      rest.(runningForCron := LiveRows(cfg, View(), c), runningGlobal := counters.runningGlobal)
    }

    /** The rows the database counts as running for a cron. */
    function CountRunning(c: string): (n: nat)
      reads this
      requires Linked()
      ensures n == LiveRows(cfg, View(), c)
    {
      CountsAgree(rows, tasks, c);
      cfg.stranded(c) + CountLive(rows, c)
    }

    /** A fire for a cron that is not there. */
    ghost method IgnoreFire(c: string)
      requires Linked()
      modifies this`tasks
      ensures Linked() && View() == Ignore(cfg, old(View()), c)
    {
      IgnoreIs(cfg, View(), c);
      hide Ignore, SameCounts;
      RecordTask(Task(c, false, Done, false), None, rows);
    }

    /** A fire the gate refuses. */
    ghost method RefuseFire(c: string, quota: CronQuota, rest: Snapshot, attempt: Attempt)
      requires Sound(c) && Linked() && !Evaluate(quota, cfg.global, Seen(c, rest)).Admit?
      modifies this`tasks
      ensures Linked() && View() == Fire(cfg, old(View()), c, Some(quota), rest, attempt)
    {
      FireIs(cfg, View(), c, quota, rest, attempt);
      hide Fire, SameCounts, Evaluate, BumpSlot, LiveRows;
      RecordTask(Task(c, false, Done, false), None, rows);
    }

    /** A fire the gate admits. */
    method CarryOut(c: string, ghost quota: CronQuota, ghost rest: Snapshot, attempt: Attempt) returns (r: Result<nat, AdmitError>)
      requires Sound(c) && Linked() && Evaluate(quota, cfg.global, Seen(c, rest)).Admit?
      modifies this`rows, this`tasks, counters
      ensures Linked() && View() == Fire(cfg, old(View()), c, Some(quota), rest, attempt)
      ensures r.Ok? <==> attempt.Spawns?
      ensures r.Err? ==> r.error == ErrorOf(attempt)
      ensures r.Ok? ==> r.value < |rows| && rows[r.value] == RunRow(c, true)
      ensures LiveRows(cfg, View(), c) <= quota.maxConcurrentRuns
      ensures r.Ok? && cfg.global.maxConcurrentRuns > 0 ==> counters.runningGlobal <= cfg.global.maxConcurrentRuns
    {
      FireIs(cfg, View(), c, quota, rest, attempt);
      ExecutorLimits.AdmitsIff(quota, cfg.global, Seen(c, rest));
      ghost var before := rows;
      hide Fire, SameCounts, Evaluate, BumpSlot, Tally;
      r := AdmitAndSpawn(c, attempt);
      RecordTask(Carried(c, attempt), RowLeft(attempt), before);
    }

    /**
     One fire with nothing else in between is exactly the model's steps for it. An unknown cron is
     ignored, a refusal is audited unless it is a deferral, and an admission leaves the limits kept.
     */
    method ProcessFire(c: string, quota: Option<CronQuota>, rest: Snapshot, attempt: Attempt) returns (o: Outcome)
      requires Sound(c) && Linked()
      modifies this`rows, this`audits, this`tasks, counters
      ensures Linked() && View() == Fire(cfg, old(View()), c, quota, rest, attempt)
      ensures o.Unknown? <==> quota.None?
      ensures quota.Some? ==>
                var d := Evaluate(quota.value, cfg.global, old(Seen(c, rest)));
                && (o.Refused? <==> !d.Admit?)
                && (o.Refused? ==> ExecutorLimits.FirstObjection(quota.value, cfg.global, old(Seen(c, rest)), o.why))
                && (o.Refused? ==> o.why == d && (o.audited <==> !d.DeferLoadavg? && !d.DeferBackoff?))
                && (o.Started? <==> d.Admit? && attempt.Spawns?)
                && (o.Failed? ==> !attempt.Spawns? && o.error == ErrorOf(attempt))
                && audits == old(audits) + if d.Admit? || d.DeferLoadavg? || d.DeferBackoff? then [] else [(c, d)]
      ensures o.Started? ==> o.run < |rows| && rows[o.run] == RunRow(c, true)
      ensures o.Started? || o.Failed? ==> LiveRows(cfg, View(), c) <= quota.value.maxConcurrentRuns
      ensures o.Started? && cfg.global.maxConcurrentRuns > 0 ==> counters.runningGlobal <= cfg.global.maxConcurrentRuns
    {
      hide SameCounts, Evaluate, LiveRows, Ignore, Enter, Carry, CountLive, SlotsOf, ExecutorLimits.FirstObjection;
      if quota.None? {
        IgnoreFire(c);
        return Unknown;
      }
      hide Fire;
      var d := Evaluate(quota.value, cfg.global, rest.(runningForCron := CountRunning(c), runningGlobal := counters.runningGlobal));
      if d.Admit? {
        var r := CarryOut(c, quota.value, rest, attempt);
        return if r.Err? then Failed(r.error) else Started(r.value);
      }
      ExecutorLimits.RefusalIsFirstObjection(quota.value, cfg.global, Seen(c, rest));
      RefuseFire(c, quota.value, rest, attempt);
      if IsDeferral(d) {
        return Refused(d, false);
      }
      audits := audits + [(c, d)];
      return Refused(d, true);
    }

    /** Records the newest task beside the row it left, if any. */
    ghost method RecordTask(t: Task, row: Option<bool>, before: seq<RunRow>)
      requires SameCounts(before, tasks) && rows == RowsWith(before, t.cron, row) && (t.rowLive <==> row == Some(true))
      modifies this`tasks
      ensures Linked() && tasks == old(tasks) + [t]
      ensures Tally(tasks, Row(t.cron)) == Tally(old(tasks), Row(t.cron)) + if row == Some(true) then 1 else 0
    {
      RowCounts(before, tasks, t, row);
      TallySnoc(tasks, t, Row(t.cron));
      hide Tally, CountLive, SameCounts;
      tasks := tasks + [t];
    }
  }

  lemma CountsAgree(rows: seq<RunRow>, ts: seq<Task>, c: string)
    requires SameCounts(rows, ts)
    ensures CountLive(rows, c) == Tally(ts, Row(c))
  {
  }

  /** The task an admitted fire ends as. */
  function Carried(c: string, attempt: Attempt): Task {
    if attempt.Spawns? then Task(c, false, Watching, true) else Task(c, false, Done, RowLeft(attempt) == Some(true))
  }

  /** What the model's steps for a fire come to. */
  lemma FireIs(cfg: Config, s: Exec, c: string, q: CronQuota, rest: Snapshot, attempt: Attempt)
    requires s.lock.None? && s.global < U32_MAX && SlotsOf(s.perCron, c) < U32_MAX && (c in s.perCron ==> s.perCron[c] > 0)
    ensures var d := Evaluate(q, cfg.global, rest.(runningForCron := LiveRows(cfg, s, c), runningGlobal := s.global));
            Fire(cfg, s, c, Some(q), rest, attempt)
            == if !d.Admit? then With(s.tasks, Task(c, false, Done, false), None, s.global, s.perCron)
               else if attempt.Spawns? then With(s.tasks, Carried(c, attempt), None, s.global + 1, BumpSlot(s.perCron, c))
               else With(s.tasks, Carried(c, attempt), None, s.global, s.perCron)
  {
    EnterIs(cfg, s, c);
    DecideIs(cfg, s.tasks, c, LiveRows(cfg, s, c), s.global, s.perCron, q, rest);
    CarryIs(cfg, s.tasks, c, s.global, s.perCron, attempt);
    hide Enter, Carry, Next, Evaluate, LiveRows, BumpSlot;
  }

  /** A task and its row, if any, are counted alike. */
  lemma RowCounts(rows: seq<RunRow>, ts: seq<Task>, t: Task, row: Option<bool>)
    requires SameCounts(rows, ts) && (t.rowLive <==> row == Some(true))
    ensures SameCounts(RowsWith(rows, t.cron, row), ts + [t])
  {
    forall c ensures CountLive(RowsWith(rows, t.cron, row), c) == Tally(ts + [t], Row(c)) {
      CountsAgree(rows, ts, c);
      TallySnoc(ts, t, Row(c));
      if row.Some? {
        LiveSnoc(rows, RunRow(t.cron, row.value), c);
      }
      hide Tally, CountLive, SameCounts;
    }
    hide Tally, CountLive;
  }

  /** Taking a slot and giving it back leaves no trace, entry or not. */
  lemma BumpThenFree(m: map<string, nat>, c: string)
    requires SlotsOf(m, c) < U32_MAX && (c in m ==> m[c] > 0)
    ensures FreeSlot(BumpSlot(m, c), c) == m
  {
  }

  lemma LiveSnoc(rows: seq<RunRow>, row: RunRow, c: string)
    ensures CountLive(rows + [row], c) == CountLive(rows, c) + if row == RunRow(c, true) then 1 else 0
  {
    assert (rows + [row])[..|rows|] == rows;
  }
}
